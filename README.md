# Loan-application form automation: retry rules and field normalisers

This project models the sequential core of a browser automation. The automation fills a web loan-application form from one spreadsheet row, in one browser session (`index.js`, with helpers in `utils.js`). The model covers the parts that are logic rather than browser driving:

- **Bounded retry.** `retryStep` calls a step up to `retries` times, returns the first success and rethrows the last failure. `waitForAnySelector` runs rounds of probes over an ordered list of CSS selectors and returns the first element found. The browser is an oracle. For `retryStep` it is `fn(j)`, the outcome of call `j`. For `waitForAnySelector` it is `page(probe)`, what one probe yields; a probe is identified by its round, the selector's position in the list and the selector. Call counts, probe order and the error path can then be stated exactly (module `Retry`, `retry.dfy`).
- **Form values.** `scrapeWebsite` computes the text it types from the row inline. The model lifts that logic into functions: the per-field defaults for falsy cells, the date-of-birth split on `/` or `-` with zero padding, the routing-number right padding to nine characters and the account-type mapping (module `FormInputs`, `form_inputs.dfy`).
- **utils.js helpers.** `formatDate` renders month/day/year without padding. `validateAndFormatData` rejects a record missing any of 18 required fields; otherwise it rewrites `employer`, `loan_amount`, `zip` and `ssn` in place and returns the same object. It is modelled as the class `Utils.Applicant`, whose field map the method updates. Its meaning is given by the pure function `Utils.Normalize`, and the lemmas are about that function (module `Utils`, `utils.dfy`).
- **JavaScript semantics.** The JavaScript semantics these rely on are written out in module `Js` (`js.dfy`): truthiness, `String(x)`, `padStart`, `padEnd`, `split` and `join`. A spreadsheet row is a `map<string, JsValue>` in which a missing key reads as `undefined`. In `index.js` every read is `data?.key`, except the two reads of `data.dob` (index.js:196, 199), which run only after a `data?.dob` test succeeds; so a missing row (`data` undefined) behaves like the empty map there.

`index.js` never calls `validateAndFormatData` or `formatDate`: it imports only `humanKeys` and `humanSleep` from `utils.js`. The form therefore types the raw zip and ssn cells. The model keeps the two helpers as separate operations. The automation processes the first row of the sheet in a single session.

## Model

| member | source | states |
|---|---|---|
| `Retry.RetryStep` | index.js:53-66 | `fn` is called at most `retries` times, and all calls but the last reject with a value. A resolved call's value is returned. If all `retries` calls reject with a value, the last call's error is thrown. A rejection with `null` or `undefined` ends the loop at once with the TypeError raised by reading its `message`. With `retries <= 0`, `fn` is never called and the result is `undefined`, not a throw. The result equals the reference definition `RetryFrom`. |
| `Retry.RetryReturnsFirstSuccess` | index.js:54-56 | If attempts before `k` reject and attempt `k < retries` resolves, `retryStep` returns attempt `k`'s value. |
| `Retry.RetryThrowsLastError` | index.js:57-62 | If every allowed attempt rejects, the error thrown is the one from attempt `retries - 1`, not an earlier one. |
| `Retry.RetryNullishRejectionThrowsTypeError` | index.js:57-60 | If attempts before `k` reject with a value and attempt `k < retries` rejects with `null` or `undefined`, `retryStep` throws a TypeError, however many attempts remain. |
| `Retry.NoAttemptsReturnsUndefined` | index.js:54-66 | With `retries <= 0` the reference definition settles as `undefined`. |
| `Retry.Rounds` | index.js:18 | `options.retries` or 3: a missing or zero count gives 3, every other count is used as given, and the result is never 0. |
| `Retry.RoundCount` | index.js:18 | The loop runs no round exactly when the count is negative, and otherwise runs that many rounds. |
| `Retry.WaitForAnySelector` | index.js:17-38 | Probes follow round-major, list order: the probes made are a prefix of the full schedule. Every probe before the last one found nothing. A returned element is what the last probe yielded. Each probe records its round, its selector's position and the selector, so a selector listed twice is probed twice per round. It throws only after the whole schedule of rounds × selectors probes has been made and every probe found nothing (null or thrown). |
| `Retry.ScheduleLength` | index.js:18-19 | The full schedule makes exactly rounds × number-of-selectors probes. |
| `Retry.ScheduleAt` | index.js:18-19 | Probe `a * n + k` of the schedule exists and is selector `k` (at position `k`) in round `a`, for every round `a` and selector position `k`. |
| `Retry.SchedulePrefix` | index.js:18-19 | The probes of fewer rounds are a prefix of the probes of more rounds. |
| `Js.PadStart` | index.js:201-203 | `padStart` gives length max(width, original length). It keeps the original as a suffix, puts fill characters only in front and never truncates. |
| `Js.PadEnd` | index.js:585 | `padEnd` gives length max(width, original length). It keeps the original as a prefix and puts fill characters only after it. |
| `Js.Split` | index.js:199 | `split` on a character class yields at least one piece, and no piece contains a separator. |
| `Js.SplitJoin` | index.js:199 | Splitting a `join` of separator-free pieces on one of the separators gives back exactly the original pieces. |
| `Js.DigitsRoundTrip` | utils.js:90 | `String(n)` of a natural number reads back as `n`. |
| `Js.ToJsString` | utils.js:94 | `String(v)` is empty exactly for the empty string. |
| `FormInputs.TextOr` | index.js:191 | `data?.key` or the fallback: a truthy cell gives its string form, which is never empty. A falsy cell (missing, `""`, `0`, `null`, `false`) gives the fallback. |
| `FormInputs.DobPlanOf` | index.js:195-208 | A number cell is treated as an Excel date serial, zero included. Any other truthy cell is parsed as text. A falsy non-number cell gets a random date of birth. |
| `FormInputs.DobFromText` | index.js:199-204 | The text is split on `/` or `-`. Month and day are zero-padded to at least 2 characters and the year to at least 4, and pieces already long enough are unchanged. A missing piece is the text "undefined". No part is empty. |
| `FormInputs.DobOfDelimitedText` | index.js:199-204 | `m<sep>d<sep>y` with either separator gives exactly the padded `m`, `d` and `y`. |
| `FormInputs.DobOfUndelimitedText` | index.js:199-204 | A text without a separator becomes the month; day and year become "undefined". |
| `FormInputs.DobFromTextIdempotent` | index.js:199-204 | Writing the normalised month, day and year back as `mm/dd/yyyy` and normalising again gives the same three pieces. |
| `FormInputs.BankAba` | index.js:582-586 | A falsy cell gives `011000015`. A value shorter than 9 characters is right-padded with `0` to exactly 9, keeping its prefix. A longer value is typed unchanged. |
| `FormInputs.BankType` | index.js:602 | The result is `Cheque` exactly when the cell is the string `checking`, and `Savings` for every other value, including missing. |
| `FormInputs.LastNameAsWritten` | index.js:192 | `data?.lasname` or `Doe`: a truthy `lasname` cell gives its text, and a missing or falsy one gives `Doe`, whatever the `lastname` column holds. |
| `FormInputs.LastNameAsWrittenIgnoresColumn` | index.js:192 | Changing the `lastname` cell never changes the last name typed. A row holding only `lastname: "Smith"` types `Doe`. |
| `FormInputs.LastName` | index.js:192 | The corrected last name: a truthy `lastname` cell gives its text, otherwise `Doe`. |
| `FormInputs.FormValuesOf` | index.js:191-634 | A truthy state cell that is not a string aborts the row (its `toUpperCase` throws), and nothing else does. Otherwise each value is its column's cell or that column's default, the date of birth follows `DobPlanOf`, the routing number `BankAba` and the account type `BankType`. Every typed value is non-empty, so `humanKeys` never skips one. An empty row gives every default: John, Doe, a random date of birth, 3233233323, 123 Main St, 90001, Los Angeles, CA, Employer Inc, 5000, 3233233323, Bank of America, 123456789, 011000015, Savings, 123456789, D1234567. |
| `FormInputs.StateCellOutcomes` | index.js:309-310 | A non-zero number in the state column aborts the row (0 is falsy and becomes `CA`). A non-empty state text is kept as given for the lookup. |
| `Utils.FormatDate` | utils.js:37-44 | A non-`Date` argument is returned unchanged. A `Date` gives a string. |
| `Utils.FormatDatePieces` | utils.js:41-44 | A formatted date splits on `/` into the month counted from 1, then the day, then the year. |
| `Utils.FormatDateRoundTrip` | utils.js:41-44 | For a calendar date, the three pieces read back as month + 1, day and year, and none of them has a leading zero. |
| `Utils.DobOfFormattedDate` | index.js:199-204 | A date rendered by `formatDate` and fed to the date-of-birth normaliser comes back as month and day padded to 2 digits and the year padded to 4. |
| `Utils.MissingAmong` | utils.js:79 | `fields.some(f => !data[f])` holds exactly when some listed field is falsy. |
| `Utils.RejectsExactlyIncomplete` | utils.js:57-82 | A record is rejected (`null`) exactly when one of the 18 required fields is falsy. An empty string or 0 counts as missing. |
| `Utils.FormatEmployer` | utils.js:85-87 | A string name of 1 or 2 characters gets ` CO` appended. Any other value is unchanged, including names of 3 or more characters and non-strings, whose `length` is undefined. |
| `Utils.LoanAmount` | utils.js:89-91 | The new amount is a string of digits whose value is a multiple of 10 in [100, 1000] and which ends in `0`. |
| `Utils.LoanAmountReachesEveryValue` | utils.js:90 | Every multiple of 10 from 100 to 1000 is a possible draw. |
| `Utils.FormatZip` | utils.js:93-100 | A zip whose string form has 4 or 3 characters gets one or two leading zeros and becomes 5 characters, keeping the original as its suffix. Any other length is left as it was. |
| `Utils.FormatSsn` | utils.js:102-107 | An ssn shorter than 9 characters is left-padded with zeros to exactly 9, keeping the original as its suffix. A longer one is unchanged. |
| `Utils.NormalizeEffect` | utils.js:84-109 | An accepted record keeps its keys and every field other than employer, loan_amount, zip and ssn. Those four are rewritten by the rules above. |
| `Utils.NormalizeKeepsComplete` | utils.js:84-109 | The normalised record still has all 18 required fields truthy. |
| `Utils.FormatEmployerIdempotent` | utils.js:85-87 | Formatting the employer twice is the same as formatting it once. |
| `Utils.FormatZipIdempotent` | utils.js:93-100 | Formatting the zip twice is the same as formatting it once. |
| `Utils.FormatSsnIdempotent` | utils.js:102-107 | Formatting the ssn twice is the same as formatting it once. |
| `Utils.RevalidateOnlyRedrawsLoan` | utils.js:56-110 | Validating the output again accepts it and changes nothing but the loan amount, which is drawn again. |
| `Utils.Applicant.ValidateAndFormatData` | utils.js:56-110 | The result is `null`, with the record unchanged, exactly when a required field is falsy. Otherwise the same object is returned, its fields rewritten as `Normalize` says. |
| `Utils.Applicant.FormatEmployerField` | utils.js:85-87 | Only the employer field changes, and only when it is set. |
| `Utils.Applicant.DrawLoanAmount` | utils.js:89-91 | Only the loan amount changes, and only when it is set. |
| `Utils.Applicant.FormatZipField` | utils.js:93-100 | Only the zip changes, and only when it is set. |
| `Utils.Applicant.FormatSsnField` | utils.js:102-107 | Only the ssn changes, and only when it is set. |

## Findings

| source | as written | input that shows it | evidently intended | confidence | as-written member | corrected member |
|---|---|---|---|---|---|---|
| index.js:192 | the last name is read from `data?.lasname` | a row with `lastname: "Smith"` and no `lasname` column types `Doe` | read `data?.lastname`, the column `validateAndFormatData` requires (utils.js:68) | high; not executed | `FormInputs.LastNameAsWrittenIgnoresColumn` | `FormInputs.LastName` |

`FormInputs.FormValuesOf` uses the corrected `FormInputs.LastName`.

## Left out

- Browser driving is not modelled: launching, navigation, iframe access, `fill`, `click`, `selectOption`, checkboxes. Its only trace is the two oracles.
- Time is not modelled: the `humanSleep` pauses between attempts and rounds, and `humanKeys`' per-key delays.
- The `timeout` option of `waitForAnySelector` is not modelled. A probe that times out is a `ProbeError` answer of the oracle.
- Spreadsheet reading is not modelled: `getEmailFromExcel`, the email default and the `XLSX.readFile` calls. The row is an input map.
- `saveErrorState`, which writes a screenshot and HTML to disk, is not modelled.
- `getRandomDOB`, `excelDateToParts`, `formatPayDate` and the pay-date arithmetic are not modelled: they depend on `Date`, epoch milliseconds and the local time zone. The model records only which of them the date-of-birth cell selects (`FormInputs.DobPlan`).
- The lookups into `./constant` (`states`, `payPeriodMap`, `jobTitles`) are not modelled. `./constant` is not part of this model. The state is never typed: index.js selects the option labelled `states[stateAbbr.toUpperCase()]` or `California`. The model keeps the state cell's text (`stateAbbr`) and does not model the upper-casing or the lookup.
- `Retry.RetryStep`: `retries` is an integer argument. The default `retries = 3` used at index.js:291 is passed explicitly. Fractional counts are not modelled. The step's label is only logged and is left out.
- `Retry.Rounds`: `options.retries` is an optional integer. Non-numeric or NaN counts are not modelled.
- `Js.JsValue`: string lengths count Unicode code points, whereas JavaScript's `length` counts UTF-16 code units. For text outside the Basic Multilingual Plane (an emoji, say), the length tests of `FormatEmployer`, `FormatZip`, `FormatSsn` and `BankAba` and the widths of `padStart` and `padEnd` therefore differ from the source. For example, a two-emoji employer name has length 4 in JavaScript and is left unchanged, but the model appends ` CO`.
- `Js.JsValue`: numbers are integers. Fractions, NaN, Infinity and the exponent notation `String` uses beyond 1e21 are not modelled.
- `Utils.FormatDate`: the `catch` branch is not modelled. A `Date`'s getters do not throw; an invalid `Date` yields NaN, which is outside the integer model.
- `Utils.LoanAmount`: `Math.random()` becomes the parameter `pick`, which is `Math.floor(Math.random() * 91)` and ranges over 0..90.
- `FormInputs.FormValuesOf`: the last name is the corrected `LastName`, read from `lastname`. index.js reads `lasname` (see Findings), and `LastNameAsWritten` models that.
- `Utils.ValidateAndFormat`: the record is always a map. `validateAndFormatData(undefined)` throws a TypeError at `data[field]` (utils.js:79), which is not modelled; the empty map is rejected with `null` instead.
- `humanKeys` and `humanSleep` are not modelled beyond the fact that `humanKeys` types nothing for a falsy text.

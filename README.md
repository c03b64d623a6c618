# Customer-request validation, modelled in Dafny

The service accepts a customer-lookup request: a customer id, an optional start
and end date-time written as `YYYY-MM-DDThh:mm:ss.mmmZ`, an optional page and an
optional limit. The repository validates it in two revisions, and this project
models both:

- **Fail-fast revision** (`routes/CustomerRequest`, module `Routes`). The
  constructor runs seven guards in a fixed order and throws on the first one that
  fails. Otherwise it stores its five arguments unchanged. Its `fromExchange`
  passes the raw header values straight to the constructor. This is the revision
  the live route calls.
- **Declarative revision** (`model/CustomerRequest` with
  `utils/DateRangeValidator`, modules `Model` and `DateRangeValidator`). The
  constructor stores anything. `fromExchange(exchange, defaultLimit)` replaces an
  absent page with 0 and an absent limit with `defaultLimit`. Bean-validation
  annotations (`@NotEmpty`, `@Pattern`, `@Min`, `@Max`) and the class-level
  `@ValidDateRange` decide which values are violations. All violations are
  collected into a set.

Shared pieces:

- **`DateTime`** holds three things:
  - the 24-character recogniser behind `String.matches` with the date pattern;
  - `LocalDateTime.parse` with `ISO_DATE_TIME` and its strict resolver (month 1–12, a day that exists in the month under proleptic Gregorian leap years, hour 0–23, minute and second 0–59);
  - `isAfter`.
- **`Request`** holds the shared pieces of the request:
  - the five-field record;
  - `equals`;
  - the rules a request can break, each with its property path and message.
- **`Revisions`** relates the two revisions. On the same five field values (before any defaulting) they agree on every request except two kinds: one with an empty date string, and one where a well-formed date sits beside a string of the right form that is not a real date. From the same headers they still agree after the declarative defaults, provided the configured default limit is null or within [0, 500]; a default above 500 makes requests the fail-fast revision accepts violate `@Max`.

Java `null` is `None`, and `Integer` is the subset type `Int32`. Throwing is a
`Failure` carrying either the violated rule (an `IllegalArgumentException` with
that rule's message) or the text `LocalDateTime.parse` rejected (a
`DateTimeParseException`). The validator's side effect of adding a violation to
its context is modelled as returning that violation.

In these places the code does something a reader might not expect; the model
follows the code:

- **No trimming.** The id is checked only with `isEmpty`, so `" "` is accepted.
- **The live route uses the fail-fast revision**
  (`routes/CustomerRestService.java:39`). The declarative revision is not wired
  into any route.
- **Defaults are validated.** In the declarative revision they are written into
  the same annotated fields. A configured default limit above 500 is therefore
  itself a violation.
- **Violations are unordered.** They form a set: several can hold at once, and
  none has precedence.
- **An unreal date is not a bad argument.** Take two well-formed dates of which
  one is not a real date (February 30, month 13). The fail-fast constructor does
  not raise `IllegalArgumentException` for it. `LocalDateTime.parse` throws
  `DateTimeParseException`, which the route's handlers map to the general 500
  response rather than the 400 one.
- **The declarative revision treats empty and absent dates differently.**
  `@Pattern` rejects an empty date. The date-range validator, like the fail-fast
  constructor, skips it.

## Model

| member | source | states |
|---|---|---|
| Request.Equals | src/main/java/com/insulet/practice/first/routes/CustomerRequest.java:109-121 | `equals` holds exactly when all five fields are equal |
| Request.EqualsIsEquivalence | src/main/java/com/insulet/practice/first/model/CustomerRequest.java:94-106 | `equals` is reflexive, symmetric and transitive |
| DateTime.MatchesShape | src/main/java/com/insulet/practice/first/routes/CustomerRequest.java:24 | a string that matches the pattern has exactly 24 characters and digit groups of widths 4,2,2,2,2,2,3 |
| DateTime.DaysInMonth | src/main/java/com/insulet/practice/first/routes/CustomerRequest.java:37-38 | months have 28 to 31 days, and 29 exactly for February of a leap year |
| DateTime.Parse | src/main/java/com/insulet/practice/first/routes/CustomerRequest.java:37-38 | a parsed date-time comes from a string that matches the pattern and satisfies every strict field range; a matching string parses to exactly the fields it spells when they are in range, and does not parse otherwise |
| DateTime.Format | src/main/java/com/insulet/practice/first/utils/DateRangeValidator.java:37-38 | rendering any fields that fit the layout gives a string that matches the pattern and reads back as those fields |
| DateTime.ParseFormat | src/main/java/com/insulet/practice/first/utils/DateRangeValidator.java:37-38 | a real date-time, rendered, parses back to itself |
| DateTime.FormatParse | src/main/java/com/insulet/practice/first/utils/DateRangeValidator.java:37-38 | a string that parses is the rendering of its parse: parsing loses nothing |
| DateTime.ParseRejectsUnrealFields | src/main/java/com/insulet/practice/first/routes/CustomerRequest.java:36-38 | a well-formed string fails to parse exactly when its fields are not a real date-time |
| DateTime.LeapDay | src/main/java/com/insulet/practice/first/routes/CustomerRequest.java:37-38 | February 29 is a date exactly in Gregorian leap years (2024 and 2000 are, 2023 and 1900 are not) |
| DateTime.IsAfterIsStrictTotalOrder | src/main/java/com/insulet/practice/first/routes/CustomerRequest.java:39 | `isAfter` is irreflexive, asymmetric, transitive and total on distinct values |
| DateTime.ChronologicalIsLexicographic | src/main/java/com/insulet/practice/first/utils/DateRangeValidator.java:37-40 | for two strings that parse, `compareTo` of the date-times has the sign of the strings' `compareTo`, so "start after end" is lexicographic `start > end` |
| DateTime.LexCompareDigits | src/main/java/com/insulet/practice/first/routes/CustomerRequest.java:24 | equal-length digit strings compare as the numbers they denote |
| DateTime.PadDigitsOfNumber | src/main/java/com/insulet/practice/first/routes/CustomerRequest.java:24 | a digit group is the zero-padded rendering of its value |
| Routes.New | src/main/java/com/insulet/practice/first/routes/CustomerRequest.java:17-58 | the constructor succeeds exactly on admissible arguments and then stores all five unchanged; a parse failure happens only with both dates present, on a string that matches but does not parse |
| Routes.ConstructRunsGuardsInOrder | src/main/java/com/insulet/practice/first/routes/CustomerRequest.java:19-51 | the constructor equals running the seven guards in order (id, start format, end format, range, page, limit below 0, limit above 500) and stopping at the first that fails |
| Routes.CustomerIdChecked | src/main/java/com/insulet/practice/first/routes/CustomerRequest.java:19-21 | the id error is reported exactly when the id is null or empty, whatever else is wrong |
| Routes.BlankCustomerIdAccepted | src/main/java/com/insulet/practice/first/routes/CustomerRequest.java:19 | an id of one space is accepted: no trimming |
| Routes.CustomerOnlySucceeds | src/test/java/com/insulet/practice/first/routes/CustomerRestServiceTest.java:29-32 | id `CUST123` alone is accepted and stored with page and limit still null |
| Routes.AbsentOrEmptyDateSkipsChecks | src/main/java/com/insulet/practice/first/routes/CustomerRequest.java:22-36 | a null or empty start date, and likewise a null or empty end date, behaves exactly like a null one: same outcome, same error |
| Routes.DateFormatChecked | src/main/java/com/insulet/practice/first/routes/CustomerRequest.java:22-35 | once the id passes, a present start (then end) date that does not match is rejected with its own format error |
| Routes.RangeChecked | src/main/java/com/insulet/practice/first/routes/CustomerRequest.java:36-42 | with the id present and both dates real, the range error occurs exactly when the start string is lexicographically greater; equal dates never draw it, and with nothing else wrong a start equal to the end is accepted |
| Routes.LoneDateOnlyPatternChecked | src/main/java/com/insulet/practice/first/routes/CustomerRequest.java:36 | a well-formed but unreal date alone is accepted: it is never parsed |
| Routes.UnrealDateBesideAnotherFailsToParse | src/main/java/com/insulet/practice/first/routes/CustomerRequest.java:36-38 | the same date beside another well-formed date gives a parse failure, not an illegal-argument error |
| Routes.PageAndLimitChecked | src/main/java/com/insulet/practice/first/routes/CustomerRequest.java:43-51 | after the first four guards: a negative page is rejected, then a limit below 0, then above 500, each with its own error; success exactly when the limit is null or in [0, 500] |
| Routes.LimitBoundsInclusive | src/main/java/com/insulet/practice/first/routes/CustomerRequest.java:46-51 | limits 0 and 500 pass, -1 and 501 fail with distinct errors |
| Routes.EmptyIdReportedBeforeLimit | src/main/java/com/insulet/practice/first/routes/CustomerRequest.java:19-51 | an empty id together with limit 600 reports only the id |
| DateRangeValidator.IsValid | src/main/java/com/insulet/practice/first/utils/DateRangeValidator.java:19-53 | invalid exactly when the request is non-null, both dates are non-empty and parse, and start is after end; then the single violation is on `startDate` with message "startDate cannot be after endDate" |
| DateRangeValidator.NullRequestIsValid | src/main/java/com/insulet/practice/first/utils/DateRangeValidator.java:21-23 | a null request is valid |
| DateRangeValidator.MissingDateIsValid | src/main/java/com/insulet/practice/first/utils/DateRangeValidator.java:29-34 | a null or empty date on either side makes the request valid |
| DateRangeValidator.UnparseableDateIsValid | src/main/java/com/insulet/practice/first/utils/DateRangeValidator.java:48-51 | a date that does not parse makes the request valid |
| DateRangeValidator.EqualDatesAreValid | src/main/java/com/insulet/practice/first/utils/DateRangeValidator.java:40 | equal dates are valid: the comparison is strict |
| DateRangeValidator.OnlyDatesAreRead | src/main/java/com/insulet/practice/first/utils/DateRangeValidator.java:25-26 | the verdict depends only on the two date strings |
| DateRangeValidator.InvalidIffLexicographicallyAfter | src/main/java/com/insulet/practice/first/utils/DateRangeValidator.java:37-46 | for two dates that parse, invalid exactly when the start string is lexicographically greater |
| Model.FromExchange | src/main/java/com/insulet/practice/first/model/CustomerRequest.java:62-73 | an absent page becomes 0 and an absent limit the default; present values (even out of range) and the strings are kept; page is never null, limit not when the default is not |
| Model.Violations | src/main/java/com/insulet/practice/first/model/CustomerRequest.java:14-31 | each constraint contributes its violation exactly when it is broken: id null or empty; date non-null and not matching; page or limit non-null and below 0; limit above 500; the date-range validator reporting |
| Model.ValidIff | src/main/java/com/insulet/practice/first/model/CustomerRequest.java:14-31 | a request has no violations exactly when the id is non-empty, non-null dates match, real dates are in order, the page is non-negative and the limit is in [0, 500] |
| Model.EmptyDateViolatesNullDoesNot | src/main/java/com/insulet/practice/first/model/CustomerRequest.java:20-24 | an empty date is a format violation and a null date is not |
| Model.WrongLengthDateViolates | src/main/java/com/insulet/practice/first/model/CustomerRequest.java:20-24 | a start or end date that is not 24 characters long is a format violation on that date |
| Model.LimitBounds | src/main/java/com/insulet/practice/first/model/CustomerRequest.java:29-31 | limits 0 and 500 have no limit violation, and the two limit violations never occur together |
| Model.ViolationsAccumulate | src/main/java/com/insulet/practice/first/model/CustomerRequest.java:17-31 | an empty id, a malformed start, page -1 and limit 501 give exactly those four violations at once |
| Model.CustomerOnlyGetsDefaults | src/main/java/com/insulet/practice/first/model/CustomerRequest.java:72 | id `CUST123` alone becomes page 0 and limit 100 (`RequestDefaults` fallback) and is valid |
| Model.DefaultsAreValidated | src/main/java/com/insulet/practice/first/model/CustomerRequest.java:26-31 | a defaulted page never violates, a present negative page does; an absent limit has exactly the violations of the request with the default written in as a present limit, so a negative default violates `@Min`, one above 500 violates `@Max`, and one within [0, 500] (or null) violates neither |
| Revisions.ThrownRuleIsViolated | src/main/java/com/insulet/practice/first/routes/CustomerRequest.java:19-51 | every rule the fail-fast constructor throws for is also a violation of the declarative revision, with the same message |
| Revisions.AcceptedIsValid | src/main/java/com/insulet/practice/first/model/CustomerRequest.java:14-31 | a request the fail-fast constructor accepts has no violations, unless it carries an empty date |
| Revisions.ValidIsAccepted | src/main/java/com/insulet/practice/first/routes/CustomerRequest.java:36-38 | a request without violations is accepted by the fail-fast constructor, unless it pairs an unreal date with another date |
| Revisions.RevisionsAgree | src/main/java/com/insulet/practice/first/routes/CustomerRequest.java:19-51 | on the same five field values and outside those two kinds, both revisions accept exactly the same requests |
| Revisions.RevisionsAgreeThroughDefaults | src/main/java/com/insulet/practice/first/model/CustomerRequest.java:62-73 | from the same headers, outside the two kinds (an empty date, an unreal date beside another date), the fail-fast construction and the declarative one after defaulting accept the same requests when the default limit is null or within [0, 500] |
| Revisions.OutOfRangeDefaultDiverges | src/main/java/com/insulet/practice/first/model/CustomerRequest.java:72 | with a default limit above 500, headers without a limit that the fail-fast revision accepts are invalid declaratively, with a `@Max` violation |
| Revisions.EmptyDateDiverges | src/main/java/com/insulet/practice/first/model/CustomerRequest.java:20-21 | an empty start date is skipped by the fail-fast constructor but violates `@Pattern` |
| Revisions.UnrealDateDiverges | src/main/java/com/insulet/practice/first/utils/DateRangeValidator.java:48-51 | an unreal date beside a real one makes the fail-fast constructor throw a parse error, while the declarative revision finds no violation |
| Revisions.UnrealDateExample | src/main/java/com/insulet/practice/first/routes/CustomerRequest.java:37 | February 30 and month 13 fit the layout but are not dates |
| Revisions.OrderedRangeAccepted | src/main/java/com/insulet/practice/first/routes/CustomerRequest.java:36-42 | a chronologically ordered range with page 0 and limit 100 is accepted by both revisions and stored unchanged |
| Revisions.ReversedRangeRefused | src/main/java/com/insulet/practice/first/utils/DateRangeValidator.java:40-46 | the same range reversed is refused by both revisions with "startDate cannot be after endDate", and nothing else is reported |
| Revisions.YearEndAfterYearStart | src/main/java/com/insulet/practice/first/routes/CustomerRequest.java:39 | the last millisecond of 2024 is after its first |

## Left out

- Camel wiring (`routes/CustomerRestService.java`): REST configuration, the route, the SQL insert, and the mapping of exceptions to HTTP 400/500. These are framework and database I/O. The model stops at the constructor's result.
- Error-response builders (`GlobalExceptionHandler`, `processors/*`). They read exchange properties and the wall clock. The "path: message" joining over a set has no defined order, so violations stay a set with a path and a message each.
- `routes/FirstRoute.java` (disabled) and `routes/SimpleLogger.java` (logging and the clock).
- `model/RequestDefaults.java`: only its fallback value 100 is used, as `FallbackDefaultLimit`. Spring configuration binding is not modelled.
- Header extraction and `Objects.requireNonNull(exchange)` in both `fromExchange` methods. The header values are the inputs, as a `CustomerRequest` record.
- The getters and the declarative constructor. Both are field access on an immutable record and need no separate member.
- `toString` and `hashCode`: string formatting and `Objects.hash`.
- Request.Equals: the branches of `equals(Object)` that return false for `null` or for an object of another class are outside the model's type. Both revisions share one record type here, so a fail-fast request and a declarative request with equal fields compare equal, which the `getClass()` test in Java rules out.
- The bean-validation engine itself. The model gives the semantics of each constraint, not how the engine discovers and runs them.
- DateTime.Parse: does not model the full `ISO_DATE_TIME` grammar (offsets, optional seconds, other fraction lengths). A string that does not match the fixed 24-character pattern is treated as unparseable. This matters only in `DateRangeValidator`, which is reached for such strings; the fail-fast constructor rejects them first. `Z` is taken as the literal the pattern requires.
- The text of the `DateTimeParseException`. The failure records only the string that was rejected.
- Characters are compared as Unicode code points, not UTF-16 units. The two agree on the digit and punctuation characters that matched strings contain.

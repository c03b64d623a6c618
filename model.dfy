/**
 * The declarative revision: `model/CustomerRequest`. Its constructor stores the
 * five arguments as they are; `fromExchange` substitutes a page of 0 and the
 * configured default limit for absent headers; the field annotations
 * (`@NotEmpty`, `@Pattern`, `@Min`, `@Max`) and the class-level `@ValidDateRange`
 * say which values are violations, and a request is valid when the set of its
 * violations is empty.
 */
module Model {
  import opened Wrappers
  import opened DateTime
  import opened Request
  import DateRangeValidator

  /**
   * `fromExchange(exchange, defaultLimit)` on the header values: an absent page
   * becomes 0 and an absent limit becomes `defaultLimit`; present values, even out
   * of range, and the three strings are kept as they are.
   */
  function FromExchange(headers: CustomerRequest, defaultLimit: Option<Int32>): (req: CustomerRequest)
    ensures req.customerId == headers.customerId
    ensures req.startDate == headers.startDate && req.endDate == headers.endDate
    ensures headers.page.Some? ==> req.page == headers.page
    ensures headers.page.None? ==> req.page == Some(0)
    ensures headers.limit.Some? ==> req.limit == headers.limit
    ensures headers.limit.None? ==> req.limit == defaultLimit
    ensures req.page.Some? && (defaultLimit.Some? ==> req.limit.Some?)
  {
    var page := if headers.page.Some? then headers.page.value else 0;
    var limit := if headers.limit.Some? then headers.limit else defaultLimit;
    CustomerRequest(headers.customerId, headers.startDate, headers.endDate, Some(page), limit)
  }

  // ---------------------------------------------------------------------------
  // The built-in constraints, as bean validation defines them for these types
  // ---------------------------------------------------------------------------

  /** `@NotEmpty` on a `String`: neither null nor of length 0. */
  predicate NotEmptyHolds(s: Option<string>) {
    s.Some? && |s.value| > 0
  }

  /** `@Pattern`: null is valid; otherwise the whole string must match. */
  predicate PatternHolds(s: Option<string>) {
    s.None? || Matches(s.value)
  }

  /** `@Min(min)` on an `Integer`: null is valid. */
  predicate MinHolds(v: Option<Int32>, min: int) {
    v.None? || v.value >= min
  }

  /** `@Max(max)` on an `Integer`: null is valid. */
  predicate MaxHolds(v: Option<Int32>, max: int) {
    v.None? || v.value <= max
  }

  function ViolationIf(broken: bool, v: Violation): set<Violation> {
    if broken then {v} else {}
  }

  /**
   * The set of constraint violations of a request: one per broken constraint,
   * each present exactly when its constraint is broken, and nothing else.
   */
  function Violations(req: CustomerRequest): (vs: set<Violation>)
    ensures CustomerIdEmpty in vs <==> req.customerId.None? || req.customerId.value == ""
    ensures StartDateFormat in vs <==> req.startDate.Some? && !Matches(req.startDate.value)
    ensures EndDateFormat in vs <==> req.endDate.Some? && !Matches(req.endDate.value)
    ensures StartAfterEnd in vs <==> DateRangeValidator.IsValid(Some(req)).Invalid?
    ensures NegativePage in vs <==> req.page.Some? && req.page.value < 0
    ensures NegativeLimit in vs <==> req.limit.Some? && req.limit.value < 0
    ensures LimitTooLarge in vs <==> req.limit.Some? && req.limit.value > MaxLimit
  {
    ViolationIf(!NotEmptyHolds(req.customerId), CustomerIdEmpty)
    + ViolationIf(!PatternHolds(req.startDate), StartDateFormat)
    + ViolationIf(!PatternHolds(req.endDate), EndDateFormat)
    + ViolationIf(!MinHolds(req.page, 0), NegativePage)
    + ViolationIf(!MinHolds(req.limit, 0), NegativeLimit)
    + ViolationIf(!MaxHolds(req.limit, MaxLimit as int), LimitTooLarge)
    + (match DateRangeValidator.IsValid(Some(req))
       case Valid => {}
       case Invalid(v) => {v})
  }

  /** A request is valid when it has no violations. */
  predicate Valid(req: CustomerRequest) {
    Violations(req) == {}
  }

  // ---------------------------------------------------------------------------
  // Properties
  // ---------------------------------------------------------------------------

  /**
   * Valid requests, characterised field by field: a non-empty id, dates that
   * are null or match, in chronological order when both parse, a non-negative
   * page and a limit in [0, 500].
   */
  lemma ValidIff(req: CustomerRequest)
    ensures Valid(req) <==>
      && req.customerId.Some? && req.customerId.value != ""
      && (req.startDate.Some? ==> Matches(req.startDate.value))
      && (req.endDate.Some? ==> Matches(req.endDate.value))
      && (req.startDate.Some? && req.endDate.Some? && Parse(req.startDate.value).Some? && Parse(req.endDate.value).Some?
          ==> !IsAfter(Parse(req.startDate.value).value, Parse(req.endDate.value).value))
      && (req.page.Some? ==> req.page.value >= 0)
      && (req.limit.Some? ==> 0 <= req.limit.value <= MaxLimit)
  {
  }

  /** Unlike the fail-fast revision, an empty date string is a format violation; a null date is not. */
  lemma EmptyDateViolatesNullDoesNot(req: CustomerRequest)
    ensures req.startDate == Some("") ==> StartDateFormat in Violations(req)
    ensures req.startDate.None? ==> StartDateFormat !in Violations(req)
    ensures req.endDate == Some("") ==> EndDateFormat in Violations(req)
    ensures req.endDate.None? ==> EndDateFormat !in Violations(req)
  {
  }

  /** A date that is not 24 characters long never matches, so `"2024-01-01"` is a format violation, on either side. */
  lemma WrongLengthDateViolates(req: CustomerRequest)
    ensures req.startDate.Some? && |req.startDate.value| != 24 ==> StartDateFormat in Violations(req)
    ensures req.endDate.Some? && |req.endDate.value| != 24 ==> EndDateFormat in Violations(req)
  {
    if req.startDate.Some? && Matches(req.startDate.value) { MatchesShape(req.startDate.value); }
    if req.endDate.Some? && Matches(req.endDate.value) { MatchesShape(req.endDate.value); }
  }

  /** The limit bounds are inclusive and its two violations exclude each other. */
  lemma LimitBounds(req: CustomerRequest)
    ensures req.limit == Some(0) || req.limit == Some(500) ==>
      NegativeLimit !in Violations(req) && LimitTooLarge !in Violations(req)
    ensures !(NegativeLimit in Violations(req) && LimitTooLarge in Violations(req))
  {
  }

  /** Several violations are reported together: bad id, bad start format, negative page and too large a limit all at once. */
  lemma ViolationsAccumulate(start: string)
    requires !Matches(start)
    ensures Violations(CustomerRequest(Some(""), Some(start), None, Some(-1), Some(501)))
      == {CustomerIdEmpty, StartDateFormat, NegativePage, LimitTooLarge}
  {
  }

  /** With nothing but an id, defaults fill page 0 and the configured limit, and the request is valid. */
  lemma CustomerOnlyGetsDefaults()
    ensures FromExchange(CustomerRequest(Some("CUST123"), None, None, None, None), Some(FallbackDefaultLimit))
      == CustomerRequest(Some("CUST123"), None, None, Some(0), Some(100))
    ensures Valid(FromExchange(CustomerRequest(Some("CUST123"), None, None, None, None), Some(FallbackDefaultLimit)))
  {
    ValidIff(CustomerRequest(Some("CUST123"), None, None, Some(0), Some(100)));
  }

  /**
   * Defaults are written into the constrained fields, so they are validated like
   * present values: a default limit has exactly the violations it would have as
   * a present limit, so one below 0 or above 500 is itself a violation and one
   * within [0, 500] never is. A present negative page is kept and violates.
   */
  lemma DefaultsAreValidated(headers: CustomerRequest, defaultLimit: Option<Int32>)
    ensures headers.page.None? ==> NegativePage !in Violations(FromExchange(headers, defaultLimit))
    ensures headers.page.Some? && headers.page.value < 0 ==>
      NegativePage in Violations(FromExchange(headers, defaultLimit))
    ensures headers.limit.None? && defaultLimit.Some? && defaultLimit.value > MaxLimit ==>
      LimitTooLarge in Violations(FromExchange(headers, defaultLimit))
    ensures headers.limit.None? && defaultLimit.Some? && defaultLimit.value < 0 ==>
      NegativeLimit in Violations(FromExchange(headers, defaultLimit))
    ensures headers.limit.None? ==>
      Violations(FromExchange(headers, defaultLimit)) == Violations(FromExchange(headers.(limit := defaultLimit), defaultLimit))
    ensures headers.limit.None? && (defaultLimit.None? || 0 <= defaultLimit.value <= MaxLimit) ==>
      NegativeLimit !in Violations(FromExchange(headers, defaultLimit))
      && LimitTooLarge !in Violations(FromExchange(headers, defaultLimit))
  {
  }
}

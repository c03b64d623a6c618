/**
 * The two revisions side by side. The fail-fast constructor and the declarative
 * constraints enforce the same rules with the same messages. On the same five
 * field values they agree on every request except two kinds: one with an empty
 * date string, and one pairing a well-formed date with a string of the right form
 * that is not a real date. From the same headers they also agree after the
 * declarative defaults are applied, as long as the default limit is null or
 * within [0, 500].
 */
module Revisions {
  import opened Wrappers
  import opened DateTime
  import opened Request
  import Routes
  import Model
  import DateRangeValidator

  /** Neither date is the empty string (`null` is allowed). */
  predicate NoEmptyDate(req: CustomerRequest) {
    req.startDate != Some("") && req.endDate != Some("")
  }

  /**
   * Both dates are present and of the right form, and one of them is not a real
   * date: the case where the fail-fast constructor lets `LocalDateTime.parse` throw.
   */
  predicate UnrealDatePair(req: CustomerRequest) {
    && Present(req.startDate) && Present(req.endDate)
    && Matches(req.startDate.value) && Matches(req.endDate.value)
    && (Parse(req.startDate.value).None? || Parse(req.endDate.value).None?)
  }

  /**
   * Whatever rule the fail-fast constructor reports is also broken in the
   * declarative revision: the thrown message is the message of one of its violations.
   */
  lemma ThrownRuleIsViolated(req: CustomerRequest)
    requires Routes.Construct(req).Failure? && Routes.Construct(req).error.Illegal?
    ensures Routes.Construct(req).error.violation in Model.Violations(req)
  {
  }

  /** A request the fail-fast constructor accepts has no violations, unless it carries an empty date. */
  lemma AcceptedIsValid(req: CustomerRequest)
    requires Routes.Construct(req).Success? && NoEmptyDate(req)
    ensures Model.Valid(req)
  {
    Model.ValidIff(req);
  }

  /** A request without violations is accepted by the fail-fast constructor, unless it carries an unreal date beside another date. */
  lemma ValidIsAccepted(req: CustomerRequest)
    requires Model.Valid(req) && !UnrealDatePair(req)
    ensures Routes.Construct(req).Success?
  {
    Model.ValidIff(req);
  }

  /** Outside the two exceptional kinds, the revisions accept exactly the same requests. */
  lemma RevisionsAgree(req: CustomerRequest)
    requires NoEmptyDate(req) && !UnrealDatePair(req)
    ensures Routes.Construct(req).Success? <==> Model.Valid(req)
  {
    Model.ValidIff(req);
  }

  /**
   * From the same headers, outside the two exceptional kinds, the fail-fast
   * `fromExchange` (no defaults) and the declarative one (page 0, the configured
   * limit) accept the same requests, when the configured default limit is null or
   * within [0, 500].
   */
  lemma RevisionsAgreeThroughDefaults(headers: CustomerRequest, defaultLimit: Option<Int32>)
    requires NoEmptyDate(headers) && !UnrealDatePair(headers)
    requires defaultLimit.None? || 0 <= defaultLimit.value <= MaxLimit
    ensures Routes.Construct(headers).Success? <==> Model.Valid(Model.FromExchange(headers, defaultLimit))
  {
    Model.ValidIff(headers);
    Model.ValidIff(Model.FromExchange(headers, defaultLimit));
  }

  /** A configured default limit above 500 breaks the agreement: headers the fail-fast revision accepts then violate `@Max`. */
  lemma OutOfRangeDefaultDiverges(headers: CustomerRequest, defaultLimit: Option<Int32>)
    requires Routes.Construct(headers).Success? && headers.limit.None?
    requires defaultLimit.Some? && defaultLimit.value > MaxLimit
    ensures LimitTooLarge in Model.Violations(Model.FromExchange(headers, defaultLimit))
    ensures !Model.Valid(Model.FromExchange(headers, defaultLimit))
  {
  }

  /** First divergence: an empty date is skipped by the fail-fast constructor but is a format violation declaratively. */
  lemma EmptyDateDiverges(req: CustomerRequest)
    requires Routes.Construct(req).Success? && req.startDate.None?
    ensures Routes.Construct(req.(startDate := Some(""))).Success?
    ensures StartDateFormat in Model.Violations(req.(startDate := Some("")))
  {
    Model.EmptyDateViolatesNullDoesNot(req.(startDate := Some("")));
  }

  /**
   * Second divergence: a string of the right form that is not a real date, beside
   * a real date, makes the fail-fast constructor throw a parse error, while the
   * declarative revision, whose range check skips what does not parse, finds
   * nothing wrong.
   */
  lemma UnrealDateDiverges(id: string, bad: LocalDateTime, good: LocalDateTime)
    requires id != "" && bad.FitsLayout() && !bad.Valid() && good.Valid() && good.Representable()
    ensures var req := CustomerRequest(Some(id), Some(Format(bad)), Some(Format(good)), None, None);
      && Routes.Construct(req) == Failure(Routes.UnparseableDate(Format(bad)))
      && Model.Valid(req)
  {
    ParseRejectsUnrealFields(bad);
    MatchesShape(Format(bad));
    MatchesShape(Format(good));
    Model.ValidIff(CustomerRequest(Some(id), Some(Format(bad)), Some(Format(good)), None, None));
  }

  /** February 30 and month 13 fit the layout but are not dates; December 31, 23:59:59.999 is. */
  lemma UnrealDateExample()
    ensures LocalDateTime(2024, 2, 30, 0, 0, 0, 0).FitsLayout() && !LocalDateTime(2024, 2, 30, 0, 0, 0, 0).Valid()
    ensures LocalDateTime(2024, 13, 1, 0, 0, 0, 0).FitsLayout() && !LocalDateTime(2024, 13, 1, 0, 0, 0, 0).Valid()
    ensures LocalDateTime(2024, 12, 31, 23, 59, 59, 999).Valid() && LocalDateTime(2024, 12, 31, 23, 59, 59, 999).Representable()
  {
  }

  /** A range in chronological order, with the page and limit defaults, is accepted by both revisions. */
  lemma OrderedRangeAccepted(first: LocalDateTime, last: LocalDateTime)
    requires first.Valid() && first.Representable() && last.Valid() && last.Representable()
    requires IsAfter(last, first)
    ensures var forward := CustomerRequest(Some("CUST123"), Some(Format(first)), Some(Format(last)), Some(0), Some(100));
      Routes.Construct(forward) == Success(forward) && Model.Valid(forward)
  {
    ParseFormat(first);
    ParseFormat(last);
    IsAfterIsStrictTotalOrder(first, last, last);
    Model.ValidIff(CustomerRequest(Some("CUST123"), Some(Format(first)), Some(Format(last)), Some(0), Some(100)));
  }

  /** The same range reversed is refused by both revisions, with the same message and nothing else. */
  lemma ReversedRangeRefused(first: LocalDateTime, last: LocalDateTime)
    requires first.Valid() && first.Representable() && last.Valid() && last.Representable()
    requires IsAfter(last, first)
    ensures var backward := CustomerRequest(Some("CUST123"), Some(Format(last)), Some(Format(first)), Some(0), Some(100));
      && Routes.Construct(backward) == Failure(Routes.Illegal(StartAfterEnd))
      && Model.Violations(backward) == {StartAfterEnd}
  {
    ParseFormat(first);
    ParseFormat(last);
    MatchesShape(Format(first));
    MatchesShape(Format(last));
    var backward := CustomerRequest(Some("CUST123"), Some(Format(last)), Some(Format(first)), Some(0), Some(100));
    assert DateRangeValidator.IsValid(Some(backward)).Invalid?;
    OnlyRangeViolated(backward);
  }

  /** A request whose only broken constraint is the date range has exactly that violation. */
  lemma OnlyRangeViolated(req: CustomerRequest)
    requires Present(req.customerId) && req.page == Some(0) && req.limit == Some(100)
    requires req.startDate.Some? && req.endDate.Some? && Matches(req.startDate.value) && Matches(req.endDate.value)
    requires DateRangeValidator.IsValid(Some(req)).Invalid?
    ensures Model.Violations(req) == {StartAfterEnd}
  {
    var vs := Model.Violations(req);
    forall v | v in vs ensures v == StartAfterEnd {
      match v
      case StartAfterEnd =>
      case _ =>
    }
  }

  /** The whole of 2024: its last millisecond is after its first. */
  lemma YearEndAfterYearStart()
    ensures LocalDateTime(2024, 1, 1, 0, 0, 0, 0).Valid() && LocalDateTime(2024, 12, 31, 23, 59, 59, 999).Valid()
    ensures IsAfter(LocalDateTime(2024, 12, 31, 23, 59, 59, 999), LocalDateTime(2024, 1, 1, 0, 0, 0, 0))
  {
  }
}

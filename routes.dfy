/**
 * The fail-fast revision: the constructor of `routes/CustomerRequest`, which the
 * live route calls. It runs a fixed sequence of guards, throws on the first one
 * that fails, and otherwise stores its five arguments as they are, with no
 * defaults.
 */
module Routes {
  import opened Wrappers
  import opened DateTime
  import opened Request

  /**
   * What the constructor throws: an `IllegalArgumentException` for a broken rule,
   * with that rule's message, or the `DateTimeParseException` that
   * `LocalDateTime.parse` raises for a date it cannot resolve, carrying the text.
   */
  datatype Err = Illegal(violation: Violation) | UnparseableDate(text: string)

  /**
   * What a successfully constructed request guarantees, stated field by field:
   * a non-empty id, present dates of the right form, a chronologically ordered
   * pair of real dates when both are present, a non-negative page and a limit
   * in [0, 500].
   */
  predicate Admissible(req: CustomerRequest) {
    && Present(req.customerId)
    && (Present(req.startDate) ==> Matches(req.startDate.value))
    && (Present(req.endDate) ==> Matches(req.endDate.value))
    && (Present(req.startDate) && Present(req.endDate) ==>
          && Parse(req.startDate.value).Some?
          && Parse(req.endDate.value).Some?
          && !IsAfter(Parse(req.startDate.value).value, Parse(req.endDate.value).value))
    && (req.page.Some? ==> req.page.value >= 0)
    && (req.limit.Some? ==> 0 <= req.limit.value <= MaxLimit)
  }

  /**
   * The constructor `CustomerRequest(customerId, startDate, endDate, page, limit)`:
   * it succeeds exactly on admissible arguments and then stores them unchanged.
   */
  function New(customerId: Option<string>, startDate: Option<string>, endDate: Option<string>,
               page: Option<Int32>, limit: Option<Int32>): (r: Result<CustomerRequest, Err>)
    ensures r.Success? <==> Admissible(CustomerRequest(customerId, startDate, endDate, page, limit))
    ensures r.Success? ==> r.value == CustomerRequest(customerId, startDate, endDate, page, limit)
    ensures r.Failure? && r.error.UnparseableDate? ==>
      Present(startDate) && Present(endDate) && Matches(r.error.text) && Parse(r.error.text).None?
  {
    if customerId.None? || customerId.value == "" then Failure(Illegal(CustomerIdEmpty))
    else if Present(startDate) && !Matches(startDate.value) then Failure(Illegal(StartDateFormat))
    else if Present(endDate) && !Matches(endDate.value) then Failure(Illegal(EndDateFormat))
    else if Present(startDate) && Present(endDate) && Parse(startDate.value).None? then
      Failure(UnparseableDate(startDate.value))
    else if Present(startDate) && Present(endDate) && Parse(endDate.value).None? then
      Failure(UnparseableDate(endDate.value))
    else if Present(startDate) && Present(endDate)
      && IsAfter(Parse(startDate.value).value, Parse(endDate.value).value) then
      Failure(Illegal(StartAfterEnd))
    else if page.Some? && page.value < 0 then Failure(Illegal(NegativePage))
    else if limit.Some? && limit.value < 0 then Failure(Illegal(NegativeLimit))
    else if limit.Some? && limit.value > MaxLimit then Failure(Illegal(LimitTooLarge))
    else Success(CustomerRequest(customerId, startDate, endDate, page, limit))
  }

  /** `New` applied to the five fields of a record. */
  function Construct(raw: CustomerRequest): Result<CustomerRequest, Err> {
    New(raw.customerId, raw.startDate, raw.endDate, raw.page, raw.limit)
  }

  // ---------------------------------------------------------------------------
  // Guard order
  // ---------------------------------------------------------------------------

  const GuardCount := 7

  /**
   * Guard `k` of the constructor, evaluated on its own: 0 the id, 1 and 2 the
   * formats, 3 the range (parsing both dates, start first), 4 the page, 5 and 6
   * the two limit bounds. `None` means the guard lets the arguments through.
   */
  function Guard(k: nat, raw: CustomerRequest): Option<Err>
    requires k < GuardCount
  {
    if k == 0 then
      (if !Present(raw.customerId) then Some(Illegal(CustomerIdEmpty)) else None)
    else if k == 1 then
      (if Present(raw.startDate) && !Matches(raw.startDate.value) then Some(Illegal(StartDateFormat)) else None)
    else if k == 2 then
      (if Present(raw.endDate) && !Matches(raw.endDate.value) then Some(Illegal(EndDateFormat)) else None)
    else if k == 3 then
      (if !(Present(raw.startDate) && Present(raw.endDate)) then None
       else if Parse(raw.startDate.value).None? then Some(UnparseableDate(raw.startDate.value))
       else if Parse(raw.endDate.value).None? then Some(UnparseableDate(raw.endDate.value))
       else if IsAfter(Parse(raw.startDate.value).value, Parse(raw.endDate.value).value) then Some(Illegal(StartAfterEnd))
       else None)
    else if k == 4 then
      (if raw.page.Some? && raw.page.value < 0 then Some(Illegal(NegativePage)) else None)
    else if k == 5 then
      (if raw.limit.Some? && raw.limit.value < 0 then Some(Illegal(NegativeLimit)) else None)
    else
      (if raw.limit.Some? && raw.limit.value > MaxLimit then Some(Illegal(LimitTooLarge)) else None)
  }

  /** The guards from `k` on, run in order: the first one that fails decides the error; when none fails the arguments are stored. */
  function RunGuards(k: nat, raw: CustomerRequest): Result<CustomerRequest, Err>
    requires k <= GuardCount
    decreases GuardCount - k
  {
    if k == GuardCount then Success(raw)
    else
      match Guard(k, raw)
      case Some(e) => Failure(e)
      case None => RunGuards(k + 1, raw)
  }

  /** The constructor is its seven guards run in order: the first failing guard wins. */
  lemma ConstructRunsGuardsInOrder(raw: CustomerRequest)
    ensures Construct(raw) == RunGuards(0, raw)
  {
  }

  // ---------------------------------------------------------------------------
  // Properties of single guards
  // ---------------------------------------------------------------------------

  /** A null or empty id is rejected with the id error, whatever else is wrong; nothing else triggers it. */
  lemma CustomerIdChecked(raw: CustomerRequest)
    ensures Construct(raw) == Failure(Illegal(CustomerIdEmpty)) <==> raw.customerId.None? || raw.customerId.value == ""
  {
  }

  /** An id and nothing else is accepted and stored without defaults: page and limit stay null. */
  lemma CustomerOnlySucceeds()
    ensures New(Some("CUST123"), None, None, None, None) == Success(CustomerRequest(Some("CUST123"), None, None, None, None))
    ensures New(Some("CUST123"), None, None, None, None).value.page.None?
  {
  }

  /** No trimming: an id made of one space is accepted. */
  lemma BlankCustomerIdAccepted()
    ensures New(Some(" "), None, None, None, None) == Success(CustomerRequest(Some(" "), None, None, None, None))
  {
  }

  /** A null or empty date skips every date check: the constructor behaves as if that date were null. */
  lemma AbsentOrEmptyDateSkipsChecks(raw: CustomerRequest)
    ensures !Present(raw.startDate) ==> Construct(raw).Success? == Construct(raw.(startDate := None)).Success?
    ensures !Present(raw.startDate) && Construct(raw).Failure? ==> Construct(raw) == Construct(raw.(startDate := None))
    ensures !Present(raw.endDate) ==> Construct(raw).Success? == Construct(raw.(endDate := None)).Success?
    ensures !Present(raw.endDate) && Construct(raw).Failure? ==> Construct(raw) == Construct(raw.(endDate := None))
  {
  }

  /** A present date that does not match the pattern is rejected, once the id has passed, with that date's format error. */
  lemma DateFormatChecked(raw: CustomerRequest)
    requires Present(raw.customerId)
    ensures Present(raw.startDate) && !Matches(raw.startDate.value) ==> Construct(raw) == Failure(Illegal(StartDateFormat))
    ensures (!Present(raw.startDate) || Matches(raw.startDate.value)) && Present(raw.endDate) && !Matches(raw.endDate.value)
      ==> Construct(raw) == Failure(Illegal(EndDateFormat))
  {
  }

  /**
   * When both dates are present and real, a start strictly after the end is rejected
   * and a start equal to the end is not (with nothing else wrong, it is accepted): the
   * order compared is lexicographic order of the strings.
   */
  lemma RangeChecked(raw: CustomerRequest)
    requires Present(raw.customerId) && Present(raw.startDate) && Present(raw.endDate)
    requires Parse(raw.startDate.value).Some? && Parse(raw.endDate.value).Some?
    ensures LexCompare(raw.startDate.value, raw.endDate.value) > 0 <==> Construct(raw) == Failure(Illegal(StartAfterEnd))
    ensures raw.startDate == raw.endDate ==> Construct(raw) != Failure(Illegal(StartAfterEnd))
    ensures raw.startDate == raw.endDate && raw.page.None? && raw.limit.None? ==> Construct(raw).Success?
  {
    ChronologicalIsLexicographic(raw.startDate.value, raw.endDate.value);
    IsAfterIsStrictTotalOrder(Parse(raw.startDate.value).value, Parse(raw.endDate.value).value, Parse(raw.endDate.value).value);
  }

  /** A date that matches the pattern but is not a real date passes when it is alone. */
  lemma LoneDateOnlyPatternChecked(id: string, s: string, page: Option<Int32>, limit: Option<Int32>)
    requires id != "" && Matches(s) && Parse(s).None?
    requires page.Some? ==> page.value >= 0
    requires limit.Some? ==> 0 <= limit.value <= MaxLimit
    ensures New(Some(id), Some(s), None, page, limit).Success?
    ensures New(Some(id), None, Some(s), page, limit).Success?
  {
  }

  /** The same date beside another well-formed date makes construction fail with a parse error, not an illegal-argument error. */
  lemma UnrealDateBesideAnotherFailsToParse(id: string, s: string, other: string)
    requires id != "" && Matches(s) && Parse(s).None? && Matches(other)
    ensures New(Some(id), Some(s), Some(other), None, None) == Failure(UnparseableDate(s))
    ensures New(Some(id), Some(other), Some(s), None, None).Failure?
    ensures !New(Some(id), Some(other), Some(s), None, None).error.Illegal?
  {
  }

  /**
   * Once the id and the dates have passed: a negative page is rejected, then a
   * negative limit, then a limit above 500; null page and limit are accepted.
   */
  lemma PageAndLimitChecked(raw: CustomerRequest)
    requires Guard(0, raw).None? && Guard(1, raw).None? && Guard(2, raw).None? && Guard(3, raw).None?
    ensures raw.page.Some? && raw.page.value < 0 ==> Construct(raw) == Failure(Illegal(NegativePage))
    ensures (raw.page.None? || raw.page.value >= 0) ==>
      && (raw.limit.Some? && raw.limit.value < 0 <==> Construct(raw) == Failure(Illegal(NegativeLimit)))
      && (raw.limit.Some? && raw.limit.value > MaxLimit <==> Construct(raw) == Failure(Illegal(LimitTooLarge)))
      && (raw.limit.None? || 0 <= raw.limit.value <= MaxLimit <==> Construct(raw).Success?)
  {
    ConstructRunsGuardsInOrder(raw);
  }

  /** The bounds are inclusive: limits 0 and 500 pass, -1 and 501 do not; a null page is stored as null. */
  lemma LimitBoundsInclusive()
    ensures New(Some("CUST123"), None, None, None, Some(0)).Success?
    ensures New(Some("CUST123"), None, None, None, Some(500)) == Success(CustomerRequest(Some("CUST123"), None, None, None, Some(500)))
    ensures New(Some("CUST123"), None, None, None, Some(-1)) == Failure(Illegal(NegativeLimit))
    ensures New(Some("CUST123"), None, None, None, Some(501)) == Failure(Illegal(LimitTooLarge))
  {
  }

  /** The id guard comes first: an empty id together with limit 600 reports only the id. */
  lemma EmptyIdReportedBeforeLimit()
    ensures New(Some(""), None, None, None, Some(600)) == Failure(Illegal(CustomerIdEmpty))
  {
  }
}

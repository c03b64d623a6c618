/**
 * `utils/DateRangeValidator`: the class-level constraint of the declarative
 * revision. It looks only at the two date strings, skips the check when either is
 * missing, empty or unparseable, and reports one violation on `startDate` when the
 * start is strictly after the end. Appending that violation to the validator
 * context is modelled as returning it.
 */
module DateRangeValidator {
  import opened Wrappers
  import opened DateTime
  import opened Request

  /** `isValid`'s answer, together with the violation it adds to the context when it answers false. */
  datatype Verdict = Valid | Invalid(violation: Violation)

  /** `isValid(request, context)`; `None` is a null request. */
  function IsValid(request: Option<CustomerRequest>): (v: Verdict)
    ensures v.Invalid? ==> v.violation == StartAfterEnd
    ensures v.Invalid? ==> v.violation.Path() == "startDate" && v.violation.Message() == "startDate cannot be after endDate"
    ensures v.Invalid? <==>
      && request.Some?
      && Present(request.value.startDate) && Present(request.value.endDate)
      && Parse(request.value.startDate.value).Some? && Parse(request.value.endDate.value).Some?
      && IsAfter(Parse(request.value.startDate.value).value, Parse(request.value.endDate.value).value)
  {
    if request.None? then Valid
    else
      var startDate, endDate := request.value.startDate, request.value.endDate;
      if startDate.None? || startDate.value == "" || endDate.None? || endDate.value == "" then Valid
      else
        match (Parse(startDate.value), Parse(endDate.value))
        case (Some(start), Some(end)) =>
          if IsAfter(start, end) then Invalid(StartAfterEnd) else Valid
        case _ => Valid
  }

  /** A null request is valid. */
  lemma NullRequestIsValid()
    ensures IsValid(None) == Valid
  {
  }

  /** A missing or empty date on either side makes the request valid, whatever the other date is. */
  lemma MissingDateIsValid(req: CustomerRequest)
    requires !Present(req.startDate) || !Present(req.endDate)
    ensures IsValid(Some(req)) == Valid
  {
  }

  /** A date that does not parse makes the request valid: format errors are left to the pattern constraint. */
  lemma UnparseableDateIsValid(req: CustomerRequest)
    requires (req.startDate.Some? && Parse(req.startDate.value).None?) || (req.endDate.Some? && Parse(req.endDate.value).None?)
    ensures IsValid(Some(req)) == Valid
  {
  }

  /** Equal dates are valid: the comparison is strict. */
  lemma EqualDatesAreValid(req: CustomerRequest)
    requires req.startDate == req.endDate
    ensures IsValid(Some(req)) == Valid
  {
    if req.startDate.Some? && Parse(req.startDate.value).Some? {
      var d := Parse(req.startDate.value).value;
      IsAfterIsStrictTotalOrder(d, d, d);
    }
  }

  /** The verdict depends on the two date strings only: id, page and limit are never read. */
  lemma OnlyDatesAreRead(a: CustomerRequest, b: CustomerRequest)
    requires a.startDate == b.startDate && a.endDate == b.endDate
    ensures IsValid(Some(a)) == IsValid(Some(b))
  {
  }

  /** For two dates that parse, the request is invalid exactly when the start string is lexicographically greater. */
  lemma InvalidIffLexicographicallyAfter(req: CustomerRequest)
    requires req.startDate.Some? && req.endDate.Some?
    requires Parse(req.startDate.value).Some? && Parse(req.endDate.value).Some?
    ensures IsValid(Some(req)).Invalid? <==> LexCompare(req.startDate.value, req.endDate.value) > 0
  {
    ChronologicalIsLexicographic(req.startDate.value, req.endDate.value);
  }
}

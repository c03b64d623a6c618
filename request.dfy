/**
 * What the two revisions of `CustomerRequest` have in common: the five fields,
 * field-wise `equals`, the messages both revisions attach to each broken rule,
 * and the property-path/message pair a bean-validation violation carries.
 */
module Request {
  import opened Wrappers

  /** A `java.lang.Integer` value: 32-bit two's complement. `null` is `None` of `Option<Int32>`. */
  type Int32 = x: int | -0x8000_0000 <= x < 0x8000_0000

  /** The largest `limit` either revision accepts. */
  const MaxLimit: Int32 := 500

  /** The configured default limit when none is configured (`RequestDefaults.limit`). */
  const FallbackDefaultLimit: Int32 := 100

  /**
   * The five fields of a customer-lookup request, each possibly `null`. Both
   * revisions hold exactly these, assigned once and never changed; the raw header
   * values of an exchange have the same shape.
   */
  datatype CustomerRequest = CustomerRequest(
    customerId: Option<string>,
    startDate: Option<string>,
    endDate: Option<string>,
    page: Option<Int32>,
    limit: Option<Int32>)

  /** `s != null && !s.isEmpty()`: the test both revisions apply before looking at a date. */
  predicate Present(s: Option<string>) {
    s.Some? && s.value != ""
  }

  /** `equals`: `Objects.equals` on each of the five fields. */
  function Equals(a: CustomerRequest, b: CustomerRequest): (eq: bool)
    ensures eq <==> a == b
  {
    && a.customerId == b.customerId
    && a.startDate == b.startDate
    && a.endDate == b.endDate
    && a.page == b.page
    && a.limit == b.limit
  }

  /** `equals` is reflexive and symmetric (and, being equality of values, transitive). */
  lemma EqualsIsEquivalence(a: CustomerRequest, b: CustomerRequest, c: CustomerRequest)
    ensures Equals(a, a)
    ensures Equals(a, b) == Equals(b, a)
    ensures Equals(a, b) && Equals(b, c) ==> Equals(a, c)
  {
  }

  /**
   * The rules a request can break, each with the property it is reported on and
   * its message; both revisions use the same messages. The fail-fast revision
   * throws an `IllegalArgumentException` with the message; the declarative one
   * collects constraint violations carrying the property path and the message.
   */
  datatype Violation =
    | CustomerIdEmpty
    | StartDateFormat
    | EndDateFormat
    | StartAfterEnd
    | NegativePage
    | NegativeLimit
    | LimitTooLarge
  {
    function Path(): string {
      match this
      case CustomerIdEmpty => "customerId"
      case StartDateFormat => "startDate"
      case EndDateFormat => "endDate"
      case StartAfterEnd => "startDate"
      case NegativePage => "page"
      case NegativeLimit => "limit"
      case LimitTooLarge => "limit"
    }

    function Message(): string {
      match this
      case CustomerIdEmpty => "Customer ID cannot be null or empty"
      case StartDateFormat => "Invalid startDate format. Expected ISO 8601 format YYYY-MM-DDThh:mm:ss.mmmZ"
      case EndDateFormat => "Invalid endDate format. Expected ISO 8601 format YYYY-MM-DDThh:mm:ss.mmmZ"
      case StartAfterEnd => "startDate cannot be after endDate"
      case NegativePage => "Page number cannot be negative"
      case NegativeLimit => "Limit cannot be negative"
      case LimitTooLarge => "Limit cannot be greater than 500"
    }
  }
}

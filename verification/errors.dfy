/** The exceptions the client raises. The source arranges them under three
    unrelated base classes: a plain `GCMException`, the non-retriable family
    and the retriable family. A few Python built-in exceptions escape the
    client too and are listed here, outside all three families. */
module Errors {
  import opened Wrappers

  datatype GcmError =
    /** `GCMException`: no response, no data, zero tries, unknown error codes. */
    | GcmException(message: string)
    // the `GCMNoRetryException` family
    | MalformedJson
    | Authentication
    | TooManyRegIds
    | NoCollapseKey
    | InvalidTtl
    | MissingRegistration
    | MismatchSenderId
    | NotRegistered
    | MessageTooBig
    | InvalidRegistration
    // the `GCMRetriableException` family
    | Connection
    | Unavailable
    // Python built-ins that escape the client
    /** Raised by the plaintext retry loop once its attempts are spent. */
    | IOError
    /** A response that cannot be decoded, or a plaintext line that does not
        split into exactly one key and one value. */
    | ValueError
    /** A second plaintext response line without any `=`. */
    | IndexError

  /** The three base classes; `Unclassified` holds what derives from none of
      them. */
  datatype Family = Retriable | NoRetry | Unclassified

  function FamilyOf(e: GcmError): Family
  {
    match e
    case Connection | Unavailable => Retriable
    case GcmException(_) | IOError | ValueError | IndexError => Unclassified
    case _ => NoRetry
  }

  /** `except GCMRetriableException` catches exactly these. */
  predicate IsRetriable(e: GcmError)
  {
    FamilyOf(e) == Retriable
  }

  /** Only the connection and unavailability exceptions derive from the
      retriable base class; the Python built-ins and a plain `GCMException`
      derive from neither family. */
  lemma RetriableFamily(e: GcmError)
    ensures IsRetriable(e) <==> e == Connection || e == Unavailable
    ensures FamilyOf(e) == Unclassified <==> e.GcmException? || e == IOError || e == ValueError || e == IndexError
  {
  }

  /** The error codes the gateway reports and `raise_error` knows by name. */
  const ResponseCodes: set<string> :=
    {"InvalidRegistration", "Unavailable", "NotRegistered", "MismatchSenderId", "MessageTooBig"}

  /** `raise_error`: the exception raised for a gateway error code. Only
      "Unavailable" is retriable; an unknown code becomes a plain
      `GCMException` carrying the code as its message. */
  function RaiseError(code: string): (e: GcmError)
    ensures IsRetriable(e) <==> code == "Unavailable"
    ensures e.GcmException? <==> code !in ResponseCodes
    ensures e.GcmException? ==> e.message == code
    ensures !e.GcmException? ==> FamilyOf(e) != Unclassified
  {
    if code == "InvalidRegistration" then InvalidRegistration
    else if code == "Unavailable" then Unavailable
    else if code == "NotRegistered" then NotRegistered
    else if code == "MismatchSenderId" then MismatchSenderId
    else if code == "MessageTooBig" then MessageTooBig
    else GcmException(code)
  }

  /** The gateway code an exception stands for, when it stands for one. */
  function ErrorCode(e: GcmError): Option<string>
  {
    match e
    case InvalidRegistration => Some("InvalidRegistration")
    case Unavailable => Some("Unavailable")
    case NotRegistered => Some("NotRegistered")
    case MismatchSenderId => Some("MismatchSenderId")
    case MessageTooBig => Some("MessageTooBig")
    case _ => None
  }

  /** `RaiseError` and `ErrorCode` are inverse on the known codes: each known
      code names a distinct exception, and that exception names the code. */
  lemma RaiseErrorRoundTrip(code: string, e: GcmError)
    ensures code in ResponseCodes ==> ErrorCode(RaiseError(code)) == Some(code)
    ensures ErrorCode(e).Some? ==> RaiseError(ErrorCode(e).value) == e
  {
  }
}

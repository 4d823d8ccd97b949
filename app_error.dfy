/**
 * The HTTP error type of week2/src/error.rs: the closed enum `AppError`, the
 * response (status code and JSON body) `into_response` builds for each
 * variant, and the `Display` text its `#[error(..)]` attributes give it.
 */
module AppErrors {
  import opened Wrappers
  import Text

  type u32 = x: int | 0 <= x < 0x1_0000_0000

  /** `Limit { li, hi }`: the bounds an id must lie between. */
  datatype Limit = Limit(li: u32, hi: u32)

  /**
   * serde_valid's validation errors, known here only by their `Display` text
   * and by what `serde_json::to_value` makes of them: `Some(json)` on success,
   * `None` when serialisation fails.
   */
  datatype ValidationErrors = ValidationErrors(display: string, json: Option<string>)

  /** `Internal` wraps an `anyhow::Error`, kept here as its message. */
  datatype AppError =
    | NotFound
    | BadRequest(msg: string)
    | ValidationError(errors: ValidationErrors)
    | OutOfBounds(id: u32, limit: Limit)
    | Internal(cause: string)

  const BAD_REQUEST: nat := 400
  const NOT_FOUND: nat := 404
  const INTERNAL_SERVER_ERROR: nat := 500

  /** The `details` value of a validation body: the serialised errors, or the `{"error": ..}` fallback object. */
  datatype Json = Serialized(text: string) | ErrorObject(error: string)

  /** `ErrorResponse`: the JSON body of every error response. */
  datatype ErrorResponse =
    | Message(error: string)
    | Validation(error: string, details: Json)

  datatype Response = Response(status: nat, body: ErrorResponse)

  const SERIALIZE_FAILED := "Failed to serialize validation error to json"

  function OutOfBoundsMessage(id: u32, limit: Limit): string {
    Text.ThreeNumbers("Invalid ID ", id, ", must be between ", limit.li, " and ", limit.hi)
  }

  /** `IntoResponse::into_response`: the status and body each variant is answered with. */
  function IntoResponse(e: AppError): (r: Response)
    ensures r.status == INTERNAL_SERVER_ERROR <==> e.Internal?
    ensures r.status == NOT_FOUND <==> e.NotFound?
    ensures r.status == BAD_REQUEST <==> e.BadRequest? || e.ValidationError? || e.OutOfBounds?
    ensures r.body.Validation? <==> e.ValidationError?
  {
    match e
    case ValidationError(errs) =>
      var details := match errs.json
        case Some(j) => Serialized(j)
        case None => ErrorObject(SERIALIZE_FAILED);
      Response(BAD_REQUEST, Validation("Validation Error", details))
    case BadRequest(msg) => Response(BAD_REQUEST, Message(msg))
    case NotFound => Response(NOT_FOUND, Message("Resource not found"))
    case OutOfBounds(id, limit) => Response(BAD_REQUEST, Message(OutOfBoundsMessage(id, limit)))
    case Internal(_) => Response(INTERNAL_SERVER_ERROR, Message("Internal Server Error"))
  }

  function OutOfBoundsDisplay(id: u32, limit: Limit): string {
    Text.ThreeNumbers("Invalid ID: ", id, ",expected atleast ", limit.li, " and atmost ", limit.hi)
  }

  /** The `Display` text of each variant, from its `#[error(..)]` attribute. */
  function Display(e: AppError): (s: string)
    ensures |s| > 0
  {
    match e
    case NotFound => "Resource not found"
    case BadRequest(msg) => "Bad request: " + msg
    case ValidationError(errs) => "Validation Error: " + errs.display
    case OutOfBounds(id, limit) => OutOfBoundsDisplay(id, limit)
    case Internal(_) => "Something went wrong"
  }

  /** Every error is a client error (400 or 404) except `Internal`, the only 500. */
  lemma StatusClasses(e: AppError)
    ensures IntoResponse(e).status in {BAD_REQUEST, NOT_FOUND, INTERNAL_SERVER_ERROR}
    ensures !e.Internal? ==> 400 <= IntoResponse(e).status < 500
  {
  }

  /** `BadRequest(msg)` answers 400 with `msg` itself as the error text. */
  lemma BadRequestVerbatim(msg: string)
    ensures IntoResponse(BadRequest(msg)) == Response(BAD_REQUEST, Message(msg))
    ensures Display(BadRequest(msg)) == "Bad request: " + IntoResponse(BadRequest(msg)).body.error
  {
  }

  /** `NotFound` answers 404 with the same text as its `Display`. */
  lemma NotFoundResponse()
    ensures IntoResponse(NotFound) == Response(NOT_FOUND, Message("Resource not found"))
    ensures IntoResponse(NotFound).body.error == Display(NotFound)
  {
  }

  /**
   * A validation failure answers 400 with the error "Validation Error"; its
   * details are the serialised errors when serialisation succeeds and the
   * fallback object otherwise.
   */
  lemma ValidationResponse(errs: ValidationErrors)
    ensures var r := IntoResponse(ValidationError(errs));
      && r.status == BAD_REQUEST
      && r.body.error == "Validation Error"
      && (errs.json.Some? ==> r.body.details == Serialized(errs.json.value))
      && (errs.json.None? ==> r.body.details == ErrorObject(SERIALIZE_FAILED))
  {
  }

  /** `Internal` answers 500 "Internal Server Error", whatever error it wraps. */
  lemma InternalHidesCause(cause: string, cause': string)
    ensures IntoResponse(Internal(cause)) == Response(INTERNAL_SERVER_ERROR, Message("Internal Server Error"))
    ensures IntoResponse(Internal(cause)) == IntoResponse(Internal(cause'))
    ensures Display(Internal(cause)) == Display(Internal(cause'))
  {
  }

  /** `OutOfBounds` answers 400 with the id and both limits written in decimal into the error text. */
  lemma OutOfBoundsResponse(id: u32, limit: Limit)
    ensures IntoResponse(OutOfBounds(id, limit)) == Response(BAD_REQUEST, Message(
      "Invalid ID " + Text.Decimal(id) + ", must be between " + Text.Decimal(limit.li)
      + " and " + Text.Decimal(limit.hi)))
  {
  }

  /** The `OutOfBounds` response names its id and limits unambiguously: equal responses mean equal errors. */
  lemma OutOfBoundsResponseDetermined(id: u32, limit: Limit, id': u32, limit': Limit)
    requires IntoResponse(OutOfBounds(id, limit)) == IntoResponse(OutOfBounds(id', limit'))
    ensures id == id' && limit == limit'
  {
    Text.ThreeNumbersDetermined("Invalid ID ", ", must be between ", " and ",
                                id, limit.li, limit.hi, id', limit'.li, limit'.hi);
  }

  /** The same holds of the `Display` text, which uses other wording around the same three numbers. */
  lemma OutOfBoundsDisplayDetermined(id: u32, limit: Limit, id': u32, limit': Limit)
    requires Display(OutOfBounds(id, limit)) == Display(OutOfBounds(id', limit'))
    ensures id == id' && limit == limit'
  {
    Text.ThreeNumbersDetermined("Invalid ID: ", ",expected atleast ", " and atmost ",
                                id, limit.li, limit.hi, id', limit'.li, limit'.hi);
  }

  /**
   * The `Display` texts the response side does not already state: the
   * validation errors after a fixed prefix, the numbers of `OutOfBounds` in
   * decimal, and a fixed text for `Internal`.
   */
  lemma DisplayTexts(e: AppError)
    ensures e.ValidationError? ==> Display(e) == "Validation Error: " + e.errors.display
    ensures e.OutOfBounds? ==>
              Display(e) == "Invalid ID: " + Text.Decimal(e.id) + ",expected atleast "
                            + Text.Decimal(e.limit.li) + " and atmost " + Text.Decimal(e.limit.hi)
    ensures e.Internal? ==> Display(e) == "Something went wrong"
  {
  }

  /** The first letter of each variant's `Display` text, all different. */
  lemma DisplayFirstChar(e: AppError)
    ensures |Display(e)| > 0
    ensures Display(e)[0] == match e
      case NotFound => 'R'
      case BadRequest(_) => 'B'
      case ValidationError(_) => 'V'
      case OutOfBounds(_, _) => 'I'
      case Internal(_) => 'S'
  {
    match e
    case OutOfBounds(id, limit) =>
      assert OutOfBoundsDisplay(id, limit) == "Invalid ID: " + (Text.Decimal(id) + ",expected atleast "
        + Text.Decimal(limit.li) + " and atmost " + Text.Decimal(limit.hi));
    case _ =>
  }

  /**
   * The `Display` text tells the variant apart and keeps its payload, except
   * for what it never prints: the error wrapped by `Internal` and the JSON
   * form of validation errors.
   */
  lemma DisplayDeterminesError(e: AppError, e': AppError)
    requires Display(e) == Display(e')
    ensures e.NotFound? == e'.NotFound? && e.BadRequest? == e'.BadRequest?
    ensures e.ValidationError? == e'.ValidationError? && e.OutOfBounds? == e'.OutOfBounds?
    ensures e.Internal? == e'.Internal?
    ensures e.BadRequest? || e.OutOfBounds? ==> e == e'
    ensures e.ValidationError? ==> e.errors.display == e'.errors.display
  {
    DisplayFirstChar(e);
    DisplayFirstChar(e');
    match e
    case BadRequest(msg) =>
      var p := "Bad request: ";
      assert msg == (p + msg)[|p|..] && e'.msg == (p + e'.msg)[|p|..];
    case ValidationError(errs) =>
      var p := "Validation Error: ";
      assert errs.display == (p + errs.display)[|p|..];
      assert e'.errors.display == (p + e'.errors.display)[|p|..];
    case OutOfBounds(id, limit) =>
      OutOfBoundsDisplayDetermined(id, limit, e'.id, e'.limit);
    case _ =>
  }
}

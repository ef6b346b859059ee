/**
 * The home server's application errors and their HTTP status and client-facing reason.
 */
module HomeAppError {
  import opened PhotoModel

  datatype AppError =
    | PhotoNotFound
    | ThumbnailNotFound
    | StorageError(message: string)
    | InvalidRequest(message: string)
    | DuplicatePhoto(existing: Uuid)
    | ImageProcessingError(message: string)

  const NotFound: int := 404
  const BadRequest: int := 400
  const Conflict: int := 409
  const InternalServerError: int := 500

  /** `AppError.status`. */
  function Status(e: AppError): (code: int)
    ensures code == NotFound <==> e.PhotoNotFound? || e.ThumbnailNotFound?
    ensures code == InternalServerError <==> e.StorageError? || e.ImageProcessingError?
    ensures code == BadRequest <==> e.InvalidRequest?
    ensures code == Conflict <==> e.DuplicatePhoto?
  {
    match e
    case PhotoNotFound | ThumbnailNotFound => NotFound
    case StorageError(_) | ImageProcessingError(_) => InternalServerError
    case InvalidRequest(_) => BadRequest
    case DuplicatePhoto(_) => Conflict
  }

  const DuplicateReasonPrefix: string := "Photo already exists with id: "
  const ImageProcessingReasonPrefix: string := "Image processing failed: "

  /** `AppError.reason`. */
  function Reason(e: AppError): string
  {
    match e
    case PhotoNotFound => "Photo not found"
    case ThumbnailNotFound => "Thumbnail not found"
    case StorageError(m) => m
    case InvalidRequest(m) => m
    case DuplicatePhoto(id) => DuplicateReasonPrefix + id
    case ImageProcessingError(m) => ImageProcessingReasonPrefix + m
  }

  /**
   * The two not-found cases have fixed reasons; storage and request messages pass through
   * verbatim; an image-processing message gets a prefix and can be read back from the reason;
   * a duplicate's reason names the existing id, which can be read back as well.
   */
  lemma ReasonCarriesPayload(e: AppError)
    ensures e.PhotoNotFound? ==> Reason(e) == "Photo not found"
    ensures e.ThumbnailNotFound? ==> Reason(e) == "Thumbnail not found"
    ensures (e.StorageError? || e.InvalidRequest?) ==> Reason(e) == e.message
    ensures e.ImageProcessingError? ==>
      |Reason(e)| >= |ImageProcessingReasonPrefix| &&
      Reason(e)[..|ImageProcessingReasonPrefix|] == ImageProcessingReasonPrefix &&
      Reason(e)[|ImageProcessingReasonPrefix|..] == e.message
    ensures e.DuplicatePhoto? ==>
      |Reason(e)| >= |DuplicateReasonPrefix| &&
      Reason(e)[..|DuplicateReasonPrefix|] == DuplicateReasonPrefix &&
      Reason(e)[|DuplicateReasonPrefix|..] == e.existing
  {
  }

  /** Two duplicate errors with the same reason name the same existing photo. */
  lemma DuplicateReasonInjective(a: Uuid, b: Uuid)
    requires Reason(DuplicatePhoto(a)) == Reason(DuplicatePhoto(b))
    ensures a == b
  {
    ReasonCarriesPayload(DuplicatePhoto(a));
    ReasonCarriesPayload(DuplicatePhoto(b));
  }
}

/**
 * The cloud server's smaller error set: three cases with their status and reason.
 */
module CloudAppError {

  datatype AppError =
    | PhotoNotFound
    | StorageError(message: string)
    | InvalidRequest(message: string)

  /** `AppError.status`. */
  function Status(e: AppError): (code: int)
    ensures code == 404 <==> e.PhotoNotFound?
    ensures code == 500 <==> e.StorageError?
    ensures code == 400 <==> e.InvalidRequest?
  {
    match e
    case PhotoNotFound => 404
    case StorageError(_) => 500
    case InvalidRequest(_) => 400
  }

  /** `AppError.reason`: fixed text when the photo is missing, the carried message otherwise. */
  function Reason(e: AppError): (r: string)
    ensures e.PhotoNotFound? ==> r == "Photo not found"
    ensures !e.PhotoNotFound? ==> r == e.message
  {
    match e
    case PhotoNotFound => "Photo not found"
    case StorageError(m) => m
    case InvalidRequest(m) => m
  }
}

/**
 * `PhotoUploadValidator`: the checks an uploaded file part must pass before ingestion,
 * run in the order content type, size, file name.
 */
module UploadValidator {
  import opened Wrappers
  import opened HomeAppError

  const AllowedMimeTypes: set<string> := {"image/jpeg", "image/png", "image/heic", "image/heif", "image/webp"}

  /** 50 MiB. */
  const MaxFileSize: int := 50 * 1024 * 1024

  /** The content type used when the part declares none. */
  const FallbackContentType: string := "application/octet-stream"

  /** An uploaded multipart file part: declared content type, byte count and file name. */
  datatype FileUpload = FileUpload(contentType: Option<string>, byteCount: nat, filename: string)

  function UnsupportedTypeMessage(mimeType: string): string {
    "Unsupported file type: " + mimeType + ". Allowed types: jpeg, png, heic, webp"
  }

  const TooLargeMessage: string := "File too large. Maximum size is 50MB"
  const FilenameRequiredMessage: string := "Filename is required"

  /** `PhotoUploadValidator.validate(file:)`: `Ok(())` or the first failing check as a bad request. */
  function Validate(file: FileUpload): (r: Result<(), AppError>)
    ensures r.Ok? <==>
      file.contentType.GetOr(FallbackContentType) in AllowedMimeTypes &&
      file.byteCount <= MaxFileSize &&
      file.filename != ""
    ensures r.Err? ==> r.error.InvalidRequest? && Status(r.error) == BadRequest
  {
    var mimeType := file.contentType.GetOr(FallbackContentType);
    if mimeType !in AllowedMimeTypes then Err(InvalidRequest(UnsupportedTypeMessage(mimeType)))
    else if file.byteCount > MaxFileSize then Err(InvalidRequest(TooLargeMessage))
    else if file.filename == "" then Err(InvalidRequest(FilenameRequiredMessage))
    else Ok(())
  }

  /** The first failing check, in source order, decides the message. */
  lemma FirstFailingCheckDecides(file: FileUpload)
    ensures file.contentType.GetOr(FallbackContentType) !in AllowedMimeTypes ==>
      Validate(file) == Err(InvalidRequest(UnsupportedTypeMessage(file.contentType.GetOr(FallbackContentType))))
    ensures file.contentType.GetOr(FallbackContentType) in AllowedMimeTypes && file.byteCount > MaxFileSize ==>
      Validate(file) == Err(InvalidRequest(TooLargeMessage))
    ensures file.contentType.GetOr(FallbackContentType) in AllowedMimeTypes && file.byteCount <= MaxFileSize && file.filename == "" ==>
      Validate(file) == Err(InvalidRequest(FilenameRequiredMessage))
  {
  }

  /** A part without a content type is rejected, whatever its size and name. */
  lemma MissingContentTypeRejected(byteCount: nat, filename: string)
    ensures Validate(FileUpload(None, byteCount, filename)) ==
      Err(InvalidRequest(UnsupportedTypeMessage("application/octet-stream")))
  {
  }

  /** The size bound is inclusive: exactly 52,428,800 bytes pass, one more byte does not. */
  lemma SizeBoundInclusive(filename: string)
    requires filename != ""
    ensures Validate(FileUpload(Some("image/jpeg"), 52428800, filename)).Ok?
    ensures Validate(FileUpload(Some("image/jpeg"), 52428801, filename)) == Err(InvalidRequest(TooLargeMessage))
  {
  }

  /** A `text/plain` part is a bad request (status 400). */
  lemma PlainTextRejected(byteCount: nat, filename: string)
    ensures Validate(FileUpload(Some("text/plain"), byteCount, filename)).Err?
    ensures Status(Validate(FileUpload(Some("text/plain"), byteCount, filename)).error) == 400
  {
  }
}

/**
 * The two naming decisions `PhotoLibraryService` makes when it exports an asset: the MIME
 * type from the asset's uniform type identifier, and the file name (the original resource
 * name, or `IMG_<first 8 characters of the local identifier>.<ext>`). The export itself
 * (PhotoKit) is not modelled.
 */
module PhotoLibrary {
  import opened Wrappers
  import opened UploadValidator
  import opened PhotoStorage
  import opened Text

  /** `mimeType(for:)`: JPEG unless the identifier names PNG, HEIC/HEIF or WebP. */
  function MimeTypeFor(uti: Option<string>): (m: string)
    ensures uti.None? ==> m == "image/jpeg"
    ensures m == "image/png" <==> uti == Some("public.png")
    ensures m == "image/heic" <==> uti == Some("public.heic") || uti == Some("public.heif")
    ensures m == "image/webp" <==> uti == Some("org.webmproject.webp")
    ensures m in {"image/jpeg", "image/png", "image/heic", "image/webp"}
  {
    match uti
    case None => "image/jpeg"
    case Some(u) =>
      match u
      case "public.jpeg" => "image/jpeg"
      case "public.jpg" => "image/jpeg"
      case "public.png" => "image/png"
      case "public.heic" => "image/heic"
      case "public.heif" => "image/heic"
      case "org.webmproject.webp" => "image/webp"
      case _ => "image/jpeg"
  }

  /** Every MIME type the client sends passes the server's content-type check. */
  lemma ExportedTypeAccepted(uti: Option<string>, byteCount: nat, filename: string)
    requires byteCount <= MaxFileSize && filename != ""
    ensures Validate(FileUpload(Some(MimeTypeFor(uti)), byteCount, filename)).Ok?
  {
  }

  /** The extension of the fallback file name. */
  function FallbackExtension(uti: Option<string>): (ext: string)
    ensures ext in {"jpg", "png", "heic", "webp"}
  {
    match uti
    case Some("public.png") => "png"
    case Some("public.heic") => "heic"
    case Some("public.heif") => "heic"
    case Some("org.webmproject.webp") => "webp"
    case _ => "jpg"
  }

  const FallbackPrefix: string := "IMG_"

  /** `String.prefix(8)`: at most the first eight characters. */
  function Prefix8(s: string): (p: string)
    ensures |p| == if |s| < 8 then |s| else 8
    ensures p == s[..|p|]
  {
    if |s| < 8 then s else s[..8]
  }

  /** `IMG_<first 8 characters of the local identifier>.<ext>`. */
  function FallbackFilename(localId: string, uti: Option<string>): string {
    FallbackPrefix + Prefix8(localId) + "." + FallbackExtension(uti)
  }

  /** `filename(for:uti:)`: the asset's original resource name when there is one, unchanged. */
  function Filename(originalFilename: Option<string>, localId: string, uti: Option<string>): (name: string)
    ensures originalFilename.Some? ==> name == originalFilename.value
    ensures originalFilename.None? ==>
      |name| > |FallbackPrefix| + |Prefix8(localId)| && name[..|FallbackPrefix|] == FallbackPrefix &&
      name[|FallbackPrefix|..|FallbackPrefix| + |Prefix8(localId)|] == Prefix8(localId) &&
      name[|FallbackPrefix| + |Prefix8(localId)|..] == "." + FallbackExtension(uti)
  {
    match originalFilename
    case Some(n) => n
    case None =>
      var name := FallbackFilename(localId, uti);
      assert name[|FallbackPrefix|..|FallbackPrefix| + |Prefix8(localId)|] == Prefix8(localId);
      assert name[|FallbackPrefix| + |Prefix8(localId)|..] == "." + FallbackExtension(uti);
      name
  }

  /** The MIME type's storage extension on the server agrees with the fallback name's extension. */
  lemma FallbackExtensionMatchesMime(uti: Option<string>)
    ensures MimeExtension(MimeTypeFor(uti)) == FallbackExtension(uti)
  {
  }

  /**
   * A fallback name survives the trip to the server: when the local identifier's first eight
   * characters hold no '/' (they are hex digits in practice), the server stores the file with
   * the extension the client chose.
   */
  lemma FallbackNameKeepsExtension(localId: string, uti: Option<string>)
    requires '/' !in Prefix8(localId)
    ensures FileExtension(FallbackFilename(localId, uti), MimeTypeFor(uti)) == FallbackExtension(uti)
  {
    var stem := FallbackPrefix + Prefix8(localId);
    var ext := FallbackExtension(uti);
    var name := stem + "." + ext;
    assert FallbackFilename(localId, uti) == name;
    assert '/' !in name;
    assert LastComponent(name) == name;
    assert name[|stem|] == '.';
    var i := LastIndexOf(name, '.').value;
    assert i >= |stem|;
    assert i == |stem|;
    assert PathExtension(name) == ext;
    assert ToLower(ext) == ext;
  }
}

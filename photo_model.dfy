/**
 * The server's record types: `ExifData`, `PhotoMetadata` (the stored record), `Photo`
 * (the public projection returned by the API) and the upload response. Identifiers are
 * modelled by their `uuidString` text, dates by whole seconds; Swift `Double` EXIF values
 * are only copied and are modelled as `real`.
 */
module PhotoModel {
  import opened Wrappers

  type Uuid = string
  type Date = int

  /** The sort keys and directions that a listing accepts (`PhotoSortBy`, `SortOrder`). */
  datatype SortBy = CreatedAt | Filename | Size
  datatype SortOrder = Asc | Desc

  datatype ExifData = ExifData(
    cameraMake: Option<string>,
    cameraModel: Option<string>,
    lensModel: Option<string>,
    focalLength: Option<real>,
    aperture: Option<real>,
    shutterSpeed: Option<string>,
    iso: Option<int>,
    latitude: Option<real>,
    longitude: Option<real>,
    altitude: Option<real>,
    dateTimeOriginal: Option<Date>)

  datatype PhotoMetadata = PhotoMetadata(
    id: Uuid,
    originalFilename: string,
    mimeType: string,
    size: int,
    width: Option<int>,
    height: Option<int>,
    createdAt: Date,
    takenAt: Option<Date>,
    checksum: string,
    storagePath: string,
    thumbnailPath: Option<string>,
    exifData: Option<ExifData>)

  datatype Photo = Photo(
    id: Uuid,
    filename: string,
    mimeType: string,
    size: int,
    width: Option<int>,
    height: Option<int>,
    createdAt: Date,
    takenAt: Option<Date>,
    checksum: string)

  /** `Photo(from: metadata)`: the public fields, with the file name taken from `originalFilename`. */
  function PhotoFrom(m: PhotoMetadata): (p: Photo)
    ensures p.id == m.id && p.filename == m.originalFilename && p.mimeType == m.mimeType
    ensures p.size == m.size && p.width == m.width && p.height == m.height
    ensures p.createdAt == m.createdAt && p.takenAt == m.takenAt && p.checksum == m.checksum
  {
    Photo(m.id, m.originalFilename, m.mimeType, m.size, m.width, m.height,
          m.createdAt, m.takenAt, m.checksum)
  }

  /**
   * The projection hides storage details: records that differ only in storage path,
   * thumbnail path or EXIF data project to the same `Photo`, and records that differ in
   * any public field do not.
   */
  lemma PhotoFromHidesStorage(a: PhotoMetadata, b: PhotoMetadata)
    ensures PhotoFrom(a) == PhotoFrom(b) <==>
      a.(storagePath := b.storagePath, thumbnailPath := b.thumbnailPath, exifData := b.exifData) == b
  {
    if PhotoFrom(a) == PhotoFrom(b) {
      assert PhotoFrom(a).id == PhotoFrom(b).id;
    }
  }

  /** Applies the projection to every record of a list, keeping the order. */
  function PhotosFrom(ms: seq<PhotoMetadata>): (ps: seq<Photo>)
    ensures |ps| == |ms|
    ensures forall i :: 0 <= i < |ms| ==> ps[i] == PhotoFrom(ms[i])
  {
    if ms == [] then [] else [PhotoFrom(ms[0])] + PhotosFrom(ms[1..])
  }

  datatype PhotoUploadResponse = PhotoUploadResponse(photo: Photo, message: string)

  const UploadSuccessMessage: string := "Photo uploaded successfully"

  /** `PhotoUploadResponse(photo:)`: the photo unchanged and the fixed success message. */
  function MakeUploadResponse(photo: Photo): (r: PhotoUploadResponse)
    ensures r.photo == photo && r.message == UploadSuccessMessage
  {
    PhotoUploadResponse(photo, UploadSuccessMessage)
  }
}

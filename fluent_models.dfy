/**
 * The relational-backend rows: `PhotoMetadataModel` (table `photo_metadata`) and
 * `ExifDataModel` (table `exif_data`), with their conversions from and to the DTOs.
 * The ORM fills optional identifiers and timestamps; here those are plain optional fields.
 */
module FluentModels {
  import opened Wrappers
  import opened PhotoModel

  class ExifDataModel {
    var id: Option<Uuid>
    var photoId: Uuid
    var cameraMake: Option<string>
    var cameraModel: Option<string>
    var lensModel: Option<string>
    var focalLength: Option<real>
    var aperture: Option<real>
    var shutterSpeed: Option<string>
    var iso: Option<int>
    var latitude: Option<real>
    var longitude: Option<real>
    var altitude: Option<real>
    var dateTimeOriginal: Option<Date>

    /** `init(from:photoID:)`: every EXIF field copied, the parent set to `photoID`, no row id yet. */
    constructor FromDTO(dto: ExifData, photoID: Uuid)
      ensures id == None && photoId == photoID
      ensures ToDTO() == dto
    {
      id := None;
      photoId := photoID;
      cameraMake := dto.cameraMake;
      cameraModel := dto.cameraModel;
      lensModel := dto.lensModel;
      focalLength := dto.focalLength;
      aperture := dto.aperture;
      shutterSpeed := dto.shutterSpeed;
      iso := dto.iso;
      latitude := dto.latitude;
      longitude := dto.longitude;
      altitude := dto.altitude;
      dateTimeOriginal := dto.dateTimeOriginal;
    }

    /** `toDTO()`: every EXIF field copied from the row. */
    function ToDTO(): (d: ExifData)
      reads this
      ensures d.cameraMake == cameraMake && d.cameraModel == cameraModel && d.lensModel == lensModel
      ensures d.focalLength == focalLength && d.aperture == aperture && d.shutterSpeed == shutterSpeed
      ensures d.iso == iso && d.latitude == latitude && d.longitude == longitude
      ensures d.altitude == altitude && d.dateTimeOriginal == dateTimeOriginal
    {
      ExifData(cameraMake, cameraModel, lensModel, focalLength, aperture, shutterSpeed,
               iso, latitude, longitude, altitude, dateTimeOriginal)
    }
  }

  class PhotoMetadataModel {
    var id: Option<Uuid>
    var originalFilename: string
    var mimeType: string
    var size: int
    var width: Option<int>
    var height: Option<int>
    var createdAt: Option<Date>
    var takenAt: Option<Date>
    var checksum: string
    var storagePath: string
    var thumbnailPath: Option<string>

    /** The DTO with the model's fields, the substitutes for a missing id or timestamp, and `exifData`. */
    function ToDTO(exifData: Option<ExifData>, freshId: Uuid, now: Date): (d: PhotoMetadata)
      reads this
      ensures d.id == id.GetOr(freshId) && d.createdAt == createdAt.GetOr(now)
      ensures d.exifData == exifData
      ensures d.originalFilename == originalFilename && d.mimeType == mimeType && d.size == size
      ensures d.width == width && d.height == height && d.takenAt == takenAt
      ensures d.checksum == checksum && d.storagePath == storagePath && d.thumbnailPath == thumbnailPath
    {
      PhotoMetadata(id.GetOr(freshId), originalFilename, mimeType, size, width, height,
                    createdAt.GetOr(now), takenAt, checksum, storagePath, thumbnailPath, exifData)
    }

    /**
     * `init(from:)`: copies every stored field except `createdAt`, which stays unset until the
     * create timestamp fills it. Converting back with the DTO's own EXIF data gives the DTO
     * again, up to `createdAt`.
     */
    constructor FromDTO(dto: PhotoMetadata)
      ensures id == Some(dto.id) && createdAt == None
      ensures forall freshId, now :: ToDTO(dto.exifData, freshId, now) == dto.(createdAt := now)
    {
      id := Some(dto.id);
      originalFilename := dto.originalFilename;
      mimeType := dto.mimeType;
      size := dto.size;
      width := dto.width;
      height := dto.height;
      createdAt := None;
      takenAt := dto.takenAt;
      checksum := dto.checksum;
      storagePath := dto.storagePath;
      thumbnailPath := dto.thumbnailPath;
    }

    /** The `@Timestamp(on: .create)` behaviour: saving a new row stamps it with the current time. */
    method StampCreated(now: Date)
      modifies this`createdAt
      ensures createdAt == Some(now)
    {
      createdAt := Some(now);
    }
  }

  /**
   * Storing a DTO as a new row and reading it back: every field is restored except
   * `createdAt`, which becomes the creation time of the row.
   */
  method StoreAndLoad(dto: PhotoMetadata, now: Date, freshId: Uuid) returns (back: PhotoMetadata)
    ensures back == dto.(createdAt := now)
    ensures back.id == dto.id && back.checksum == dto.checksum && back.storagePath == dto.storagePath
  {
    var row := new PhotoMetadataModel.FromDTO(dto);
    assert row.ToDTO(dto.exifData, freshId, now) == dto.(createdAt := now);
    row.StampCreated(now);
    back := row.ToDTO(dto.exifData, freshId, now);
  }

  /** Storing an EXIF DTO under a photo and reading it back gives the same DTO. */
  method StoreAndLoadExif(dto: ExifData, photoID: Uuid) returns (back: ExifData, parent: Uuid)
    ensures back == dto && parent == photoID
  {
    var row := new ExifDataModel.FromDTO(dto, photoID);
    back := row.ToDTO();
    parent := row.photoId;
  }
}

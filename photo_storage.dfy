/**
 * `LocalPhotoStorageService`: the home server's photo store. Originals live under `basePath`
 * at `<year>/<MM>/<id>.<ext>`, thumbnails under `thumbnailsPath` at `<id>.jpg`, and the
 * metadata records in an id-keyed store. The file system is modelled as a map from full path
 * to contents, the metadata store by the dictionary it holds, the image processor by
 * functions, and `UUID()`, `Date()` and `Calendar.current` by explicit inputs.
 */
module PhotoStorage {
  import opened Wrappers
  import opened PhotoModel
  import opened Text
  import opened Checksum
  import opened RecordLists
  import opened HomeAppError
  import MetadataStore

  // ----- Path helpers -----

  /** The index of the last occurrence of `c` in `s`, if any. */
  function LastIndexOf(s: string, c: char): (r: Option<nat>)
    ensures r.Some? ==> r.value < |s| && s[r.value] == c && forall k :: r.value < k < |s| ==> s[k] != c
    ensures r.None? ==> c !in s
  {
    if s == [] then None
    else if s[|s| - 1] == c then Some(|s| - 1)
    else LastIndexOf(s[..|s| - 1], c)
  }

  /** The text after the last '/' (the whole string when there is none). */
  function LastComponent(path: string): (name: string)
    ensures '/' !in name
    ensures '/' !in path ==> name == path
  {
    match LastIndexOf(path, '/')
    case None => path
    case Some(i) => path[i + 1..]
  }

  /**
   * `(filename as NSString).pathExtension`: the text after the last '.' of the last path
   * component; empty when there is no dot or the only dot starts the name.
   */
  function PathExtension(filename: string): (ext: string)
    ensures '.' !in ext && '/' !in ext
  {
    var name := LastComponent(filename);
    match LastIndexOf(name, '.')
    case Some(i) => if i > 0 then name[i + 1..] else ""
    case None => ""
  }

  /** The extension guessed from a MIME type when the file name has none. */
  function MimeExtension(mimeType: string): (ext: string)
    ensures ext in {"jpg", "png", "heic", "webp"}
    ensures mimeType == "image/heic" || mimeType == "image/heif" <==> ext == "heic"
    ensures mimeType == "image/png" <==> ext == "png"
    ensures mimeType == "image/webp" <==> ext == "webp"
  {
    match mimeType
    case "image/jpeg" => "jpg"
    case "image/png" => "png"
    case "image/heic" => "heic"
    case "image/heif" => "heic"
    case "image/webp" => "webp"
    case _ => "jpg"
  }

  /**
   * `getFileExtension(from:mimeType:)`: the file name's own extension, lower-cased, when it has
   * one; otherwise the MIME type's. The result is never empty and holds no '.' or '/'.
   */
  function FileExtension(filename: string, mimeType: string): (ext: string)
    ensures ext != [] && '.' !in ext && '/' !in ext
    ensures PathExtension(filename) != [] ==> ext == ToLower(PathExtension(filename))
    ensures PathExtension(filename) == [] ==> ext == MimeExtension(mimeType)
  {
    var own := ToLower(PathExtension(filename));
    if own != [] then
      assert forall k :: 0 <= k < |own| ==> own[k] != '.' && own[k] != '/' by {
        forall k | 0 <= k < |own| ensures own[k] != '.' && own[k] != '/' {
          assert PathExtension(filename)[k] in PathExtension(filename);
        }
      }
      own
    else MimeExtension(mimeType)
  }

  /** A name that is one path component without an extension, as a UUID string is. */
  predicate PlainName(s: string) {
    s != [] && '/' !in s && '.' !in s
  }

  /** `generateStoragePath(id:extension:)` for the year and month of the clock reading. */
  function StoragePath(year: int, month: int, id: Uuid, ext: string): string {
    IntToDecimal(year) + "/" + Pad2(month) + "/" + id + "." + ext
  }

  /** The thumbnail's file name for a photo id. */
  function ThumbnailName(id: Uuid): string {
    id + ".jpg"
  }

  function FullPath(dir: string, name: string): string {
    dir + "/" + name
  }

  lemma LastComponentAfterSlash(prefix: string, name: string)
    requires '/' !in name
    ensures LastComponent(prefix + "/" + name) == name
  {
    var p := prefix + "/" + name;
    assert p[|prefix|] == '/';
    var i := LastIndexOf(p, '/').value;
    assert i == |prefix|;
    assert p[i + 1..] == name;
  }

  lemma ExtensionAfterDot(stem: string, ext: string)
    requires PlainName(stem) && '.' !in ext && '/' !in ext
    ensures PathExtension(stem + "." + ext) == ext
  {
    var name := stem + "." + ext;
    assert '/' !in name;
    assert LastComponent(name) == name;
    assert name[|stem|] == '.';
    var i := LastIndexOf(name, '.').value;
    assert i == |stem|;
    assert name[i + 1..] == ext;
  }

  /**
   * A stored path ends in `<id>.<ext>`, and reading its extension back gives the extension
   * it was built with.
   */
  lemma {:induction false} StoragePathEndsInName(year: int, month: int, id: Uuid, ext: string)
    requires PlainName(id) && ext != [] && '.' !in ext && '/' !in ext
    ensures LastComponent(StoragePath(year, month, id, ext)) == id + "." + ext
    ensures PathExtension(StoragePath(year, month, id, ext)) == ext
  {
    var name := id + "." + ext;
    assert '/' !in name;
    var prefix := IntToDecimal(year) + "/" + Pad2(month);
    assert StoragePath(year, month, id, ext) == prefix + "/" + name;
    LastComponentAfterSlash(prefix, name);
    ExtensionAfterDot(id, ext);
  }

  lemma StemDeterminedByName(id1: Uuid, id2: Uuid, ext: string)
    ensures id1 + "." + ext == id2 + "." + ext ==> id1 == id2
  {
    var n1, n2 := id1 + "." + ext, id2 + "." + ext;
    assert n1[..|id1|] == id1 && n2[..|id2|] == id2;
  }

  /** Different photo ids never share a storage path, whatever the dates and extensions. */
  lemma StoragePathsDistinct(y1: int, m1: int, id1: Uuid, e1: string, y2: int, m2: int, id2: Uuid, e2: string)
    requires PlainName(id1) && e1 != [] && '.' !in e1 && '/' !in e1
    requires PlainName(id2) && e2 != [] && '.' !in e2 && '/' !in e2
    requires id1 != id2
    ensures StoragePath(y1, m1, id1, e1) != StoragePath(y2, m2, id2, e2)
  {
    StoragePathEndsInName(y1, m1, id1, e1);
    StoragePathEndsInName(y2, m2, id2, e2);
    StemDeterminedByName(id1, id2, e1);
  }

  // ----- Collaborators -----

  /**
   * The image processor: checksum, dimensions and EXIF extraction, thumbnail generation. The
   * last three may throw; a thrown error is modelled by its description.
   */
  datatype ImageProcessor = ImageProcessor(
    checksum: Bytes -> string,
    dimensions: Bytes -> Result<Option<(int, int)>, string>,
    exif: Bytes -> Result<Option<ExifData>, string>,
    thumbnail: Bytes -> Result<Bytes, string>)

  /** `Calendar.current`: the year and month of a date. */
  datatype Calendar = Calendar(year: Date -> int, month: Date -> int)

  /**
   * What an upload draws from its surroundings: the fresh id, the clock readings for the path
   * and for `createdAt`, and which writes fail (with the error's description).
   */
  datatype UploadEnv = UploadEnv(
    newId: Uuid,
    pathTime: Date,
    createdAt: Date,
    originalWriteError: Option<string>,
    thumbnailWriteError: Option<string>,
    metadataWriteFails: bool)

  datatype ServiceError =
    | App(error: AppError)                          // an `AppError` thrown by the service
    | Processor(description: string)                // a dimension or EXIF extraction error, passed through
    | FileWrite(description: string)                // writing the original failed
    | FileRemove(description: string)               // removing a file of a deleted photo failed
    | Store(failure: MetadataStore.StoreError)      // the metadata store's rewrite failed

  const ThumbnailFailurePrefix: string := "Failed to generate thumbnail: "
  const PhotoFileMissingMessage: string := "Photo file not found on disk"
  const ThumbnailMaxSize: int := 300

  /** The record passes the optional year and month filters of a listing. */
  predicate MatchesDate(cal: Calendar, year: Option<int>, month: Option<int>, r: PhotoMetadata) {
    (year.None? || cal.year(r.createdAt) == year.value) &&
    (month.None? || cal.month(r.createdAt) == month.value)
  }

  function SelectByDate(m: Catalog, cal: Calendar, year: Option<int>, month: Option<int>): Catalog {
    map k | k in m && MatchesDate(cal, year, month, m[k]) :: m[k]
  }

  /** The closures of the two `filter` calls. */
  function YearIs(cal: Calendar, year: int): PhotoMetadata -> bool {
    (r: PhotoMetadata) => cal.year(r.createdAt) == year
  }

  function MonthIs(cal: Calendar, month: int): PhotoMetadata -> bool {
    (r: PhotoMetadata) => cal.month(r.createdAt) == month
  }

  /** Filtering by year and then by month selects what the combined date condition selects. */
  lemma FiltersCompose(m: Catalog, cal: Calendar, year: Option<int>, month: Option<int>)
    ensures year.None? ==> SelectByDate(m, cal, year, None) == m
    ensures year.Some? ==> SelectByDate(m, cal, year, None) == Restrict(m, YearIs(cal, year.value))
    ensures month.None? ==> SelectByDate(m, cal, year, month) == SelectByDate(m, cal, year, None)
    ensures month.Some? ==>
      SelectByDate(m, cal, year, month) == Restrict(SelectByDate(m, cal, year, None), MonthIs(cal, month.value))
  {
  }

  predicate HasChecksum(m: Catalog, checksum: string) {
    exists id :: id in m && m[id].checksum == checksum
  }

  /** No two stored records share a checksum. */
  predicate DistinctChecksums(m: Catalog) {
    forall a, b :: a in m && b in m && a != b ==> m[a].checksum != m[b].checksum
  }

  /** Adding a record whose checksum is new keeps the catalog keyed by id and its checksums distinct. */
  lemma InsertFreshChecksum(m: Catalog, x: PhotoMetadata)
    requires KeyedById(m) && !HasChecksum(m, x.checksum)
    ensures KeyedById(m[x.id := x])
    ensures DistinctChecksums(m) ==> DistinctChecksums(m[x.id := x])
  {
  }

  /** Dimension and EXIF extraction both succeed. */
  predicate Extracted(p: ImageProcessor, data: Bytes) {
    p.dimensions(data).Ok? && p.exif(data).Ok?
  }

  /** The first extraction error, dimensions before EXIF. */
  function ExtractionError(p: ImageProcessor, data: Bytes): string
    requires !Extracted(p, data)
  {
    if p.dimensions(data).Err? then p.dimensions(data).error else p.exif(data).error
  }

  /** Producing or writing the thumbnail fails. */
  predicate ThumbnailFails(p: ImageProcessor, data: Bytes, env: UploadEnv) {
    p.thumbnail(data).Err? || env.thumbnailWriteError.Some?
  }

  function ThumbnailError(p: ImageProcessor, data: Bytes, env: UploadEnv): string
    requires ThumbnailFails(p, data, env)
  {
    if p.thumbnail(data).Err? then p.thumbnail(data).error else env.thumbnailWriteError.value
  }

  /** Where an upload writes its original: `<basePath>/<year>/<MM>/<id>.<ext>`. */
  function OriginalPath(basePath: string, filename: string, mimeType: string, cal: Calendar, env: UploadEnv): string {
    FullPath(basePath, StoragePath(cal.year(env.pathTime), cal.month(env.pathTime), env.newId, FileExtension(filename, mimeType)))
  }

  /**
   * The record a successful upload saves: the new id, the client's name and MIME type, the
   * byte count, the extracted dimensions, `takenAt` from EXIF `dateTimeOriginal`, the checksum,
   * the storage path and the thumbnail name.
   */
  function NewRecord(p: ImageProcessor, filename: string, data: Bytes, mimeType: string, cal: Calendar, env: UploadEnv): (m: PhotoMetadata)
    requires Extracted(p, data)
    ensures m.id == env.newId && m.originalFilename == filename && m.mimeType == mimeType
    ensures m.size == |data| && m.checksum == p.checksum(data) && m.createdAt == env.createdAt
    ensures m.thumbnailPath == Some(ThumbnailName(env.newId)) && m.exifData == p.exif(data).value
    ensures m.storagePath == StoragePath(cal.year(env.pathTime), cal.month(env.pathTime), env.newId, FileExtension(filename, mimeType))
    ensures p.dimensions(data).value.None? ==> m.width == None && m.height == None
    ensures p.dimensions(data).value.Some? ==>
      m.width == Some(p.dimensions(data).value.value.0) && m.height == Some(p.dimensions(data).value.value.1)
    ensures m.takenAt == if m.exifData.Some? then m.exifData.value.dateTimeOriginal else None
  {
    var dims := p.dimensions(data).value;
    var exif := p.exif(data).value;
    PhotoMetadata(
      env.newId, filename, mimeType, |data|,
      if dims.Some? then Some(dims.value.0) else None,
      if dims.Some? then Some(dims.value.1) else None,
      env.createdAt,
      if exif.Some? then exif.value.dateTimeOriginal else None,
      p.checksum(data),
      StoragePath(cal.year(env.pathTime), cal.month(env.pathTime), env.newId, FileExtension(filename, mimeType)),
      Some(ThumbnailName(env.newId)), exif)
  }

  class LocalPhotoStorageService {
    const basePath: string
    const thumbnailsPath: string
    const processor: ImageProcessor
    var files: map<string, Bytes>
    var metadata: Catalog

    ghost predicate Valid()
      reads this
    {
      KeyedById(metadata)
    }

    constructor (basePath: string, thumbnailsPath: string, processor: ImageProcessor,
                 files: map<string, Bytes>, metadata: Catalog)
      requires KeyedById(metadata)
      ensures Valid()
      ensures this.basePath == basePath && this.thumbnailsPath == thumbnailsPath && this.processor == processor
      ensures this.files == files && this.metadata == metadata
    {
      this.basePath := basePath;
      this.thumbnailsPath := thumbnailsPath;
      this.processor := processor;
      this.files := files;
      this.metadata := metadata;
    }

    /** `loadAll` followed by the optional year and month filters: the selected records, once each. */
    method SelectedRecords(cal: Calendar, year: Option<int>, month: Option<int>) returns (all: seq<PhotoMetadata>)
      requires Valid()
      ensures UniqueIds(all) && ListToMap(all) == SelectByDate(metadata, cal, year, month)
      ensures |all| == |SelectByDate(metadata, cal, year, month)|
      ensures forall x :: x in all <==> x in SelectByDate(metadata, cal, year, month).Values
    {
      all := ValuesOf(metadata);
      FiltersCompose(metadata, cal, year, month);
      if year.Some? {
        FilterKeepsUnique(all, YearIs(cal, year.value));
        FilterStandsForRestrict(all, YearIs(cal, year.value));
        all := Filter(all, YearIs(cal, year.value));
      }
      if month.Some? {
        FilterKeepsUnique(all, MonthIs(cal, month.value));
        FilterStandsForRestrict(all, MonthIs(cal, month.value));
        all := Filter(all, MonthIs(cal, month.value));
      }
      UniqueListSize(all);
      ListElementsAreValues(all);
    }

    /**
     * `listPhotos`: filter by year and month of `createdAt`, sort by the key, then cut the
     * page. `listed` is the filtered, sorted list: every selected record once and nothing else,
     * keys monotone in the requested direction. `total` counts it whatever the page, and a
     * page past the end is empty.
     */
    method ListPhotos(page: int, perPage: int, sortBy: SortBy, order: SortOrder,
                      year: Option<int>, month: Option<int>, cal: Calendar)
      returns (photos: seq<Photo>, total: int, ghost listed: seq<PhotoMetadata>)
      requires Valid() && page >= 1 && perPage >= 1
      ensures forall x :: x in listed <==> x in SelectByDate(metadata, cal, year, month).Values
      ensures total == |listed| == |SelectByDate(metadata, cal, year, month)|
      ensures Ordered(listed, sortBy, order)
      ensures photos == PhotosFrom(PageOf(listed, page, perPage))
      ensures |photos| == if (page - 1) * perPage >= total then 0 else Min(perPage, total - (page - 1) * perPage)
    {
      var all := SelectedRecords(cal, year, month);
      var sorted := SortRecords(all, sortBy, order);
      PermutationSameElements(all, sorted);
      PageLength(sorted, page, perPage);
      listed := sorted;
      total := |sorted|;
      photos := PhotosFrom(PageOf(sorted, page, perPage));
    }

    /** `getPhoto(id:)`: the public projection of the stored record, or photo-not-found. */
    method GetPhoto(id: Uuid) returns (r: Result<Photo, ServiceError>)
      ensures id in metadata ==> r == Ok(PhotoFrom(metadata[id]))
      ensures id !in metadata ==> r == Err(App(PhotoNotFound))
    {
      if id !in metadata {
        return Err(App(PhotoNotFound));
      }
      r := Ok(PhotoFrom(metadata[id]));
    }

    /**
     * `getPhotoFilePath(id:)`: the original's full path under `basePath`; not-found when the
     * record is missing, a storage error when the record exists but its file does not.
     */
    method GetPhotoFilePath(id: Uuid) returns (r: Result<string, ServiceError>)
      ensures id !in metadata ==> r == Err(App(PhotoNotFound))
      ensures id in metadata ==>
        var path := FullPath(basePath, metadata[id].storagePath);
        r == if path in files then Ok(path) else Err(App(StorageError(PhotoFileMissingMessage)))
    {
      if id !in metadata {
        return Err(App(PhotoNotFound));
      }
      var path := FullPath(basePath, metadata[id].storagePath);
      if path !in files {
        return Err(App(StorageError(PhotoFileMissingMessage)));
      }
      r := Ok(path);
    }

    /** `photoExists(id:)`: a record exists and its original is on disk. */
    method PhotoExists(id: Uuid) returns (b: bool)
      ensures b <==> id in metadata && FullPath(basePath, metadata[id].storagePath) in files
    {
      if id !in metadata {
        return false;
      }
      b := FullPath(basePath, metadata[id].storagePath) in files;
    }

    /**
     * `getThumbnailFilePath(id:)`: photo-not-found without a record; thumbnail-not-found when
     * the record names no thumbnail or its file is missing.
     */
    method GetThumbnailFilePath(id: Uuid) returns (r: Result<string, ServiceError>)
      ensures id !in metadata ==> r == Err(App(PhotoNotFound))
      ensures id in metadata && metadata[id].thumbnailPath.None? ==> r == Err(App(ThumbnailNotFound))
      ensures id in metadata && metadata[id].thumbnailPath.Some? ==>
        var path := FullPath(thumbnailsPath, metadata[id].thumbnailPath.value);
        r == if path in files then Ok(path) else Err(App(ThumbnailNotFound))
    {
      if id !in metadata {
        return Err(App(PhotoNotFound));
      }
      if metadata[id].thumbnailPath.None? {
        return Err(App(ThumbnailNotFound));
      }
      var path := FullPath(thumbnailsPath, metadata[id].thumbnailPath.value);
      if path !in files {
        return Err(App(ThumbnailNotFound));
      }
      r := Ok(path);
    }

    /**
     * `findByChecksum`: the first record, in the store's listing order, whose checksum matches;
     * none exactly when no stored record has that checksum.
     */
    method FindByChecksum(checksum: string) returns (found: Option<Photo>)
      requires Valid()
      ensures found.None? <==> !HasChecksum(metadata, checksum)
      ensures found.Some? ==>
        exists id :: id in metadata && metadata[id].checksum == checksum && found.value == PhotoFrom(metadata[id])
    {
      var all := ValuesOf(metadata);
      var i := 0;
      while i < |all| && all[i].checksum != checksum
        invariant 0 <= i <= |all|
        invariant forall k :: 0 <= k < i ==> all[k].checksum != checksum
      {
        i := i + 1;
      }
      if i == |all| {
        forall id | id in metadata ensures metadata[id].checksum != checksum {
          ListToMapFrom(all, id);
        }
        return None;
      }
      ListToMapAt(all, i);
      found := Some(PhotoFrom(all[i]));
    }

    /**
     * `uploadPhoto`: reject a known checksum before touching anything; write the original,
     * then the thumbnail, removing the original again if the thumbnail cannot be produced or
     * written; finally save one metadata record. A failed metadata rewrite still leaves the
     * record in the store's memory and both files on disk.
     */
    method UploadPhoto(filename: string, data: Bytes, mimeType: string, cal: Calendar, env: UploadEnv)
      returns (r: Result<Photo, ServiceError>)
      requires Valid()
      modifies this
      ensures Valid()
      ensures old(DistinctChecksums(metadata)) ==> DistinctChecksums(metadata)
      // A known checksum: refused as a duplicate of a stored photo with that checksum, nothing written.
      ensures HasChecksum(old(metadata), processor.checksum(data)) ==>
        r.Err? && r.error.App? && r.error.error.DuplicatePhoto? &&
        r.error.error.existing in old(metadata) &&
        old(metadata)[r.error.error.existing].checksum == processor.checksum(data) &&
        files == old(files) && metadata == old(metadata)
      // Extraction errors and a failed original write: passed on, nothing written.
      ensures !HasChecksum(old(metadata), processor.checksum(data)) && !Extracted(processor, data) ==>
        r == Err(Processor(ExtractionError(processor, data))) && files == old(files) && metadata == old(metadata)
      ensures !HasChecksum(old(metadata), processor.checksum(data)) && Extracted(processor, data) &&
              env.originalWriteError.Some? ==>
        r == Err(FileWrite(env.originalWriteError.value)) && files == old(files) && metadata == old(metadata)
      // Thumbnail failure: the original is removed again, no record, an image-processing error.
      ensures !HasChecksum(old(metadata), processor.checksum(data)) && Extracted(processor, data) &&
              env.originalWriteError.None? && ThumbnailFails(processor, data, env) ==>
        r == Err(App(ImageProcessingError(ThumbnailFailurePrefix + ThumbnailError(processor, data, env)))) &&
        files == old(files) - {OriginalPath(basePath, filename, mimeType, cal, env)} &&
        metadata == old(metadata)
      // Success: both files written and exactly one record saved under the new id.
      ensures !HasChecksum(old(metadata), processor.checksum(data)) && Extracted(processor, data) &&
              env.originalWriteError.None? && !ThumbnailFails(processor, data, env) ==>
        var record := NewRecord(processor, filename, data, mimeType, cal, env);
        files == old(files)[OriginalPath(basePath, filename, mimeType, cal, env) := data]
                           [FullPath(thumbnailsPath, ThumbnailName(env.newId)) := processor.thumbnail(data).value] &&
        metadata == old(metadata)[env.newId := record] &&
        r == if env.metadataWriteFails then Err(Store(MetadataStore.WriteFailed)) else Ok(PhotoFrom(record))
    {
      var checksum := processor.checksum(data);
      var existing := FindByChecksum(checksum);
      if existing.Some? {
        return Err(App(DuplicatePhoto(existing.value.id)));
      }
      var dims := processor.dimensions(data);
      if dims.Err? {
        return Err(Processor(dims.error));
      }
      var exif := processor.exif(data);
      if exif.Err? {
        return Err(Processor(exif.error));
      }
      r := StoreNewPhoto(filename, data, mimeType, cal, env);
    }

    /**
     * Steps 4 to 8 of `uploadPhoto`, once the checksum is known to be new and extraction has
     * succeeded: the writes, the thumbnail rollback and the metadata save.
     */
    method StoreNewPhoto(filename: string, data: Bytes, mimeType: string, cal: Calendar, env: UploadEnv)
      returns (r: Result<Photo, ServiceError>)
      requires Valid() && Extracted(processor, data) && !HasChecksum(metadata, processor.checksum(data))
      modifies this
      ensures Valid()
      ensures old(DistinctChecksums(metadata)) ==> DistinctChecksums(metadata)
      ensures env.originalWriteError.Some? ==>
        r == Err(FileWrite(env.originalWriteError.value)) && files == old(files) && metadata == old(metadata)
      ensures env.originalWriteError.None? && ThumbnailFails(processor, data, env) ==>
        r == Err(App(ImageProcessingError(ThumbnailFailurePrefix + ThumbnailError(processor, data, env)))) &&
        files == old(files) - {OriginalPath(basePath, filename, mimeType, cal, env)} &&
        metadata == old(metadata)
      ensures env.originalWriteError.None? && !ThumbnailFails(processor, data, env) ==>
        var record := NewRecord(processor, filename, data, mimeType, cal, env);
        files == old(files)[OriginalPath(basePath, filename, mimeType, cal, env) := data]
                           [FullPath(thumbnailsPath, ThumbnailName(env.newId)) := processor.thumbnail(data).value] &&
        metadata == old(metadata)[env.newId := record] &&
        r == if env.metadataWriteFails then Err(Store(MetadataStore.WriteFailed)) else Ok(PhotoFrom(record))
    {
      var original := OriginalPath(basePath, filename, mimeType, cal, env);
      if env.originalWriteError.Some? {
        return Err(FileWrite(env.originalWriteError.value));
      }
      files := files[original := data];
      r := StoreThumbnailAndRecord(original, filename, data, mimeType, cal, env);
    }

    /**
     * Steps 6 to 8 of `uploadPhoto`, after the original has been written to `original`: the
     * thumbnail, removing the original again when it fails, and the metadata save.
     */
    method StoreThumbnailAndRecord(original: string, filename: string, data: Bytes, mimeType: string,
                                   cal: Calendar, env: UploadEnv)
      returns (r: Result<Photo, ServiceError>)
      requires Valid() && Extracted(processor, data) && !HasChecksum(metadata, processor.checksum(data))
      modifies this
      ensures Valid()
      ensures old(DistinctChecksums(metadata)) ==> DistinctChecksums(metadata)
      ensures ThumbnailFails(processor, data, env) ==>
        r == Err(App(ImageProcessingError(ThumbnailFailurePrefix + ThumbnailError(processor, data, env)))) &&
        files == old(files) - {original} && metadata == old(metadata)
      ensures !ThumbnailFails(processor, data, env) ==>
        var record := NewRecord(processor, filename, data, mimeType, cal, env);
        files == old(files)[FullPath(thumbnailsPath, ThumbnailName(env.newId)) := processor.thumbnail(data).value] &&
        metadata == old(metadata)[env.newId := record] &&
        r == if env.metadataWriteFails then Err(Store(MetadataStore.WriteFailed)) else Ok(PhotoFrom(record))
    {
      var thumbnail := processor.thumbnail(data);
      if thumbnail.Err? || env.thumbnailWriteError.Some? {
        var why := if thumbnail.Err? then thumbnail.error else env.thumbnailWriteError.value;
        files := files - {original};
        return Err(App(ImageProcessingError(ThumbnailFailurePrefix + why)));
      }
      files := files[FullPath(thumbnailsPath, ThumbnailName(env.newId)) := thumbnail.value];
      var record := NewRecord(processor, filename, data, mimeType, cal, env);
      InsertFreshChecksum(metadata, record);
      metadata := metadata[record.id := record];
      if env.metadataWriteFails {
        return Err(Store(MetadataStore.WriteFailed));
      }
      r := Ok(PhotoFrom(record));
    }

    /**
     * `deletePhoto(id:)`: photo-not-found without a record; otherwise removes the original and
     * then the thumbnail where they exist (a missing file is not an error), and then the record.
     * A removal that fails ends the delete with its error: the files removed before it stay
     * removed and the record stays. `originalRemoveError` and `thumbnailRemoveError` say whether
     * removing an existing file fails, and with which description.
     */
    method DeletePhoto(id: Uuid, originalRemoveError: Option<string>, thumbnailRemoveError: Option<string>,
                       metadataWriteFails: bool) returns (r: Result<(), ServiceError>)
      requires Valid()
      modifies this
      ensures Valid()
      ensures old(DistinctChecksums(metadata)) ==> DistinctChecksums(metadata)
      ensures id !in old(metadata) ==> r == Err(App(PhotoNotFound)) && files == old(files) && metadata == old(metadata)
      ensures id in old(metadata) ==>
        var m := old(metadata)[id];
        var original := FullPath(basePath, m.storagePath);
        var thumbs := if m.thumbnailPath.Some? then {FullPath(thumbnailsPath, m.thumbnailPath.value)} else {};
        var originalFails := original in old(files) && originalRemoveError.Some?;
        var thumbnailFails := exists t :: t in thumbs && t in old(files) - {original} && thumbnailRemoveError.Some?;
        (originalFails ==>
           r == Err(FileRemove(originalRemoveError.value)) && files == old(files) && metadata == old(metadata)) &&
        (!originalFails && thumbnailFails ==>
           r == Err(FileRemove(thumbnailRemoveError.value)) && files == old(files) - {original} &&
           metadata == old(metadata)) &&
        (!originalFails && !thumbnailFails ==>
           files == old(files) - {original} - thumbs && metadata == old(metadata) - {id} &&
           r == if metadataWriteFails then Err(Store(MetadataStore.WriteFailed)) else Ok(()))
    {
      if id !in metadata {
        return Err(App(PhotoNotFound));
      }
      var m := metadata[id];
      var photoPath := FullPath(basePath, m.storagePath);
      if photoPath in files {
        if originalRemoveError.Some? {
          return Err(FileRemove(originalRemoveError.value));
        }
        files := files - {photoPath};
      }
      if m.thumbnailPath.Some? {
        var thumb := FullPath(thumbnailsPath, m.thumbnailPath.value);
        if thumb in files {
          if thumbnailRemoveError.Some? {
            return Err(FileRemove(thumbnailRemoveError.value));
          }
          files := files - {thumb};
        }
      }
      metadata := metadata - {id};
      if metadataWriteFails {
        return Err(Store(MetadataStore.WriteFailed));
      }
      r := Ok(());
    }
  }

  /**
   * After a successful upload the photo can be read back by id, its thumbnail is served, and
   * a second upload of the same bytes is refused as a duplicate of it.
   */
  method UploadThenRetrieve(service: LocalPhotoStorageService, filename: string, data: Bytes,
                            mimeType: string, cal: Calendar, env: UploadEnv, env2: UploadEnv)
    returns (uploaded: Result<Photo, ServiceError>, fetched: Result<Photo, ServiceError>,
             thumb: Result<string, ServiceError>, again: Result<Photo, ServiceError>)
    requires service.Valid()
    modifies service
    ensures uploaded.Ok? ==> fetched == uploaded && thumb.Ok?
    ensures uploaded.Ok? ==> again == Err(App(DuplicatePhoto(uploaded.value.id)))
  {
    uploaded := service.UploadPhoto(filename, data, mimeType, cal, env);
    fetched := service.GetPhoto(env.newId);
    thumb := service.GetThumbnailFilePath(env.newId);
    again := service.UploadPhoto(filename, data, mimeType, cal, env2);
  }
}

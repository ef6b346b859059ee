# Photo backup: content-addressed sync and storage, modelled in Dafny

This project models the core of a self-hosted photo backup system. A device backs up its photo
library to a home server, and the server deduplicates the photos it stores.

- **Server storage engine (`LocalPhotoStorageService`).** It stores an uploaded photo as an
  original file, a thumbnail and one metadata record. Photos are refused by SHA-256 checksum
  when that content is already stored. It lists the stored records filtered by year and
  month, sorted and paginated, and deletes all three parts of a photo.
- **JSON metadata store (`JSONMetadataStore`).** The records live in a lazily loaded cache,
  which is written out whole after every change.
- **Client sync engine (`SyncEngine`).** It diffs the device library against a persisted
  upload ledger (`UploadStateStore`). It uploads the remainder one item at a time and counts
  each item as uploaded (skips included) or failed. It keeps a bounded list of recent results.
  It supports pause, resume, auto-sync on library changes and a bounded background pass.
- **Shared pieces.** The listing query and its validation, pagination info, upload validation,
  the error types of both servers, the storage configuration, the `Photo` projection of a
  record, the database models, the device's MIME type and filename derivation, and the
  client's paged gallery.

The model's inputs:
- Randomness, clocks and I/O become inputs: the new UUID, the current date, the calendar,
  file-write and metadata-write failures, the bytes on disk, the image processor's results,
  the photo library's export, SHA-256, the server's replies and the authorization status.
- The file system is a map from path to bytes.
- A pause from the UI arrives between two items of a manual pass; `pauseBefore == Some(k)`
  says it arrives just before item `k` starts.

Modules, one per source component: `Wrappers`, `Text`, `Checksum`, `PhotoModel`,
`RecordLists`, `MetadataStore`, `PhotoStorage`, `ListQuery`, `Pagination`,
`UploadValidator`, `HomeAppError`, `CloudAppError`, `HomeStorageConfig`,
`CloudStorageConfig`, `FluentModels`, `SyncStatus`, `UploadLedger`, `Sync`,
`PhotoLibrary` and `Gallery`.

Three behaviours of the code that the model keeps as written:
- The background pass stops at its first failing item: `try await uploadPhoto(asset)` inside
  the `for` loop propagates the error out of `performBackgroundSync`
  (`SyncEngine.swift:103-105`), so later items of the batch are not attempted.
- Listing sorts with `sort(by:)`, which is not stable, and the descending closure `!(a < b)`
  is not a strict order (`LocalPhotoStorageService.swift:48-59`). The model therefore leaves
  the relative order of records with equal keys unspecified.
- A failed item is counted but never stored as a `.failed` recent result: `addUploadResult`
  is called only with `.success` and `.skipped` (`SyncEngine.swift:147`, `:164`, `:172`).

## Model

| member | source | states |
|---|---|---|
| Checksum.HexDigit | CloudPhotoApp/CloudPhotoApp/Core/Extensions/Data+Checksum.swift:7 | each nibble is written as one lower-case hex digit |
| Checksum.HexValueOfDigit | CloudPhotoApp/CloudPhotoApp/Core/Extensions/Data+Checksum.swift:7 | reading a written hex digit back gives the nibble |
| Checksum.HexLower | CloudPhotoApp/CloudPhotoApp/Core/Extensions/Data+Checksum.swift:7 | "%02x" per byte: two characters per digest byte |
| Checksum.HexLowerRoundTrip | CloudPhotoApp/CloudPhotoApp/Core/Extensions/Data+Checksum.swift:5-8 | the hex string decodes back to the digest, so no information is lost |
| Checksum.HexLowerInjective | CloudPhotoApp/CloudPhotoApp/Core/Extensions/Data+Checksum.swift:5-8 | different digests give different checksum strings |
| Checksum.HexLowerAt | CloudPhotoApp/CloudPhotoApp/Core/Extensions/Data+Checksum.swift:7 | characters 2i and 2i+1 are byte i, in order (the join keeps byte order) |
| Checksum.HexLowerAlphabet | CloudPhotoApp/CloudPhotoApp/Core/Extensions/Data+Checksum.swift:7 | only the characters 0-9 and a-f occur |
| Checksum.Sha256Checksum | CloudPhotoApp/CloudPhotoApp/Core/Extensions/Data+Checksum.swift:5-8 | the digest's lower-case hex rendering; its shape is stated by Sha256ChecksumShape and its losslessness by HexLowerRoundTrip and HexLowerInjective |
| Checksum.Sha256ChecksumShape | CloudPhotoApp/CloudPhotoApp/Core/Extensions/Data+Checksum.swift:5-8 | a 32-byte SHA-256 digest gives a 64-character lower-case hex checksum |
| Text.DigitChar | home-photo-server/Sources/HomePhotoServer/Services/LocalPhotoStorageService.swift:235 | a decimal digit is the character its value above '0' |
| Text.NatToDecimal | home-photo-server/Sources/HomePhotoServer/Services/LocalPhotoStorageService.swift:235 | a natural number prints as a non-empty digit string without a leading zero |
| Text.DecimalRoundTrip | home-photo-server/Sources/HomePhotoServer/Services/LocalPhotoStorageService.swift:235 | the printed year reads back as the same number |
| Text.NatToDecimalInjective | home-photo-server/Sources/HomePhotoServer/Services/LocalPhotoStorageService.swift:235 | different years print differently |
| Text.IntToDecimal | home-photo-server/Sources/HomePhotoServer/Services/LocalPhotoStorageService.swift:235 | a number prints as digits exactly when it is not negative |
| Text.Pad2 | home-photo-server/Sources/HomePhotoServer/Services/LocalPhotoStorageService.swift:235 | "%02d" is at least two characters and plain decimal from 10 up |
| Text.Pad2TwoDigits | home-photo-server/Sources/HomePhotoServer/Services/LocalPhotoStorageService.swift:235 | months 0..99 are exactly two digits that read back as the month |
| Text.ToLower | home-photo-server/Sources/HomePhotoServer/Services/LocalPhotoStorageService.swift:240 | lower-casing keeps the length and maps each character on its own |
| Text.StrLessIrreflexive | home-photo-server/Sources/HomePhotoServer/Services/LocalPhotoStorageService.swift:54 | no filename sorts before itself |
| Text.StrLessTransitive | home-photo-server/Sources/HomePhotoServer/Services/LocalPhotoStorageService.swift:54 | filename order is transitive |
| Text.StrLessTotal | home-photo-server/Sources/HomePhotoServer/Services/LocalPhotoStorageService.swift:54 | any two different filenames are ordered one way or the other |
| PhotoModel.PhotoFrom | home-photo-server/Sources/HomePhotoServer/Models/Photo.swift:60-70 | the public photo copies id, filename, MIME type, size, dimensions, dates and checksum from the record |
| PhotoModel.PhotoFromHidesStorage | home-photo-server/Sources/HomePhotoServer/Models/Photo.swift:29-70 | two records give the same photo exactly when they differ only in storage path, thumbnail path and EXIF |
| PhotoModel.PhotosFrom | home-photo-server/Sources/HomePhotoServer/Services/LocalPhotoStorageService.swift:72 | the page is projected element by element, same length and order |
| PhotoModel.MakeUploadResponse | home-photo-server/Sources/HomePhotoServer/DTOs/PhotoUploadResponse.swift:8-11 | the response carries the photo and the fixed success message |
| RecordLists.ListToMap | home-photo-server/Sources/HomePhotoServer/Services/JSONMetadataStore.swift:51 | the dictionary built from the decoded list keys every record by its own id |
| RecordLists.ListToMapKeys | home-photo-server/Sources/HomePhotoServer/Services/JSONMetadataStore.swift:51 | the dictionary's keys are exactly the ids in the list |
| RecordLists.ListToMapAt | home-photo-server/Sources/HomePhotoServer/Services/JSONMetadataStore.swift:51 | with unique ids, every listed record is found under its id |
| RecordLists.ListToMapFrom | home-photo-server/Sources/HomePhotoServer/Services/JSONMetadataStore.swift:51 | every value of the dictionary comes from the list |
| RecordLists.ListElementsAreValues | home-photo-server/Sources/HomePhotoServer/Services/JSONMetadataStore.swift:51 | with unique ids, list elements and dictionary values are the same records |
| RecordLists.LastIdFresh | home-photo-server/Sources/HomePhotoServer/Services/JSONMetadataStore.swift:51 | with unique ids, the last record's id is not among the earlier ones |
| RecordLists.UniqueListSize | home-photo-server/Sources/HomePhotoServer/Services/JSONMetadataStore.swift:51 | with unique ids, the dictionary has as many entries as the list |
| RecordLists.ValuesOf | home-photo-server/Sources/HomePhotoServer/Services/JSONMetadataStore.swift:56 | `Array(cache.values)` in some order: unique ids, each entry exactly once, rebuilding the same dictionary |
| RecordLists.Filter | home-photo-server/Sources/HomePhotoServer/Services/LocalPhotoStorageService.swift:33-45 | the filter keeps only records of the list that pass the test |
| RecordLists.FilterKeepsUnique | home-photo-server/Sources/HomePhotoServer/Services/LocalPhotoStorageService.swift:33-45 | filtering keeps ids unique |
| RecordLists.RestrictUpdate | home-photo-server/Sources/HomePhotoServer/Services/LocalPhotoStorageService.swift:33-45 | adding a fresh record then restricting is restricting then adding it if it passes |
| RecordLists.FilterStandsForRestrict | home-photo-server/Sources/HomePhotoServer/Services/LocalPhotoStorageService.swift:33-45 | filtering the listed records is restricting the dictionary to the passing entries |
| RecordLists.DescendingClosureNotStrict | home-photo-server/Sources/HomePhotoServer/Services/LocalPhotoStorageService.swift:58 | the descending closure `!comparison` holds for a record against itself, so it is not a strict order |
| RecordLists.PrecedesTotal | home-photo-server/Sources/HomePhotoServer/Services/LocalPhotoStorageService.swift:48-59 | any two records can be placed in the requested order |
| RecordLists.PrecedesTransitive | home-photo-server/Sources/HomePhotoServer/Services/LocalPhotoStorageService.swift:48-59 | the requested order is transitive, for every key and direction |
| RecordLists.InsertKeepsOrder | home-photo-server/Sources/HomePhotoServer/Services/LocalPhotoStorageService.swift:48-59 | a record inserted at its place keeps the list ordered |
| RecordLists.InsertRecord | home-photo-server/Sources/HomePhotoServer/Services/LocalPhotoStorageService.swift:48-59 | insertion into an ordered list gives an ordered list with one more copy of the record |
| RecordLists.SortRecords | home-photo-server/Sources/HomePhotoServer/Services/LocalPhotoStorageService.swift:48-59 | the sort is a permutation of its input, ordered by the key in the requested direction |
| RecordLists.PermutationSameElements | home-photo-server/Sources/HomePhotoServer/Services/LocalPhotoStorageService.swift:48-61 | a permutation has the same length and the same records |
| RecordLists.PageOf | home-photo-server/Sources/HomePhotoServer/Services/LocalPhotoStorageService.swift:64-70 | a page holds at most perPage records |
| RecordLists.PageLength | home-photo-server/Sources/HomePhotoServer/Services/LocalPhotoStorageService.swift:64-70 | a page is full until the last, which holds the remainder; pages past the end are empty |
| RecordLists.PagesTileList | home-photo-server/Sources/HomePhotoServer/Services/LocalPhotoStorageService.swift:64-70 | pages 1..n together are exactly the first min(n*perPage, total) records: no gap, no overlap |
| RecordLists.PageBeyondEndEmpty | home-photo-server/Sources/HomePhotoServer/Services/LocalPhotoStorageService.swift:64-67 | a page starting at or beyond the end is empty |
| MetadataStore.Decode | home-photo-server/Sources/HomePhotoServer/Services/JSONMetadataStore.swift:37-53 | no file: empty cache; unreadable: error; a list with a repeated id: error; otherwise every record under its id, one entry per record |
| MetadataStore.PersistedFileReloads | home-photo-server/Sources/HomePhotoServer/Services/JSONMetadataStore.swift:55-71 | a file written from the cache decodes back to that cache |
| MetadataStore.JSONMetadataStore.constructor | home-photo-server/Sources/HomePhotoServer/Services/JSONMetadataStore.swift:9-11 | a new store is not loaded and has an empty cache |
| MetadataStore.JSONMetadataStore.EnsureLoaded | home-photo-server/Sources/HomePhotoServer/Services/JSONMetadataStore.swift:37-53 | loads once; a failed load leaves the store unloaded and reports the error |
| MetadataStore.JSONMetadataStore.Persist | home-photo-server/Sources/HomePhotoServer/Services/JSONMetadataStore.swift:55-71 | a successful write makes the file hold exactly the cache; a failed one leaves it unchanged |
| MetadataStore.JSONMetadataStore.LoadAll | home-photo-server/Sources/HomePhotoServer/Services/JSONMetadataStore.swift:13-16 | returns each cached record exactly once |
| MetadataStore.JSONMetadataStore.Get | home-photo-server/Sources/HomePhotoServer/Services/JSONMetadataStore.swift:18-21 | returns the record cached under the id, or none |
| MetadataStore.JSONMetadataStore.Save | home-photo-server/Sources/HomePhotoServer/Services/JSONMetadataStore.swift:23-27 | upserts the record into the cache, even when the following write fails |
| MetadataStore.JSONMetadataStore.Delete | home-photo-server/Sources/HomePhotoServer/Services/JSONMetadataStore.swift:29-33 | removes the id from the cache, even when the following write fails |
| MetadataStore.SaveThenReopen | home-photo-server/Sources/HomePhotoServer/Services/JSONMetadataStore.swift:23-27 | a saved record is found by a fresh store opened on the written file, and the reloaded records are the earlier ones with the saved record put under its id |
| PhotoStorage.LastIndexOf | home-photo-server/Sources/HomePhotoServer/Services/LocalPhotoStorageService.swift:240 | the last position of a character, or none when it does not occur |
| PhotoStorage.LastComponent | home-photo-server/Sources/HomePhotoServer/Services/LocalPhotoStorageService.swift:240 | the last path component contains no '/' |
| PhotoStorage.PathExtension | home-photo-server/Sources/HomePhotoServer/Services/LocalPhotoStorageService.swift:240 | the extension contains no '.' and no '/' |
| PhotoStorage.MimeExtension | home-photo-server/Sources/HomePhotoServer/Services/LocalPhotoStorageService.swift:243-249 | heic/heif give heic, png gives png, webp gives webp, everything else jpg |
| PhotoStorage.FileExtension | home-photo-server/Sources/HomePhotoServer/Services/LocalPhotoStorageService.swift:238-250 | the filename's own extension lower-cased, else the MIME type's; never empty, no '.' or '/' |
| PhotoStorage.LastComponentAfterSlash | home-photo-server/Sources/HomePhotoServer/Services/LocalPhotoStorageService.swift:235 | the component after the last '/' is the file name |
| PhotoStorage.ExtensionAfterDot | home-photo-server/Sources/HomePhotoServer/Services/LocalPhotoStorageService.swift:235 | the extension of "stem.ext" is ext |
| PhotoStorage.StoragePath | home-photo-server/Sources/HomePhotoServer/Services/LocalPhotoStorageService.swift:229-236 | "year/MM/id.ext"; its ending is stated by StoragePathEndsInName and its uniqueness per id by StoragePathsDistinct |
| PhotoStorage.StoragePathEndsInName | home-photo-server/Sources/HomePhotoServer/Services/LocalPhotoStorageService.swift:229-236 | the storage path "year/MM/id.ext" ends in "id.ext" and has extension ext |
| PhotoStorage.StemDeterminedByName | home-photo-server/Sources/HomePhotoServer/Services/LocalPhotoStorageService.swift:235 | the same file name with the same extension means the same id |
| PhotoStorage.StoragePathsDistinct | home-photo-server/Sources/HomePhotoServer/Services/LocalPhotoStorageService.swift:229-236 | different ids never share a storage path, whatever the dates and extensions |
| PhotoStorage.FiltersCompose | home-photo-server/Sources/HomePhotoServer/Services/LocalPhotoStorageService.swift:33-45 | the year filter applies only with a year, the month filter only with a month, one after the other |
| PhotoStorage.InsertFreshChecksum | home-photo-server/Sources/HomePhotoServer/Services/LocalPhotoStorageService.swift:116-120 | a record with a checksum not yet stored keeps the records keyed by id and their checksums distinct |
| PhotoStorage.NewRecord | home-photo-server/Sources/HomePhotoServer/Services/LocalPhotoStorageService.swift:147-166 | the new record has the new id, the upload's name, type, size and checksum, the storage path `year/MM/id.ext` from the path clock, width and height exactly when dimensions were extracted, `takenAt` from the EXIF `dateTimeOriginal`, the thumbnail name and the EXIF |
| PhotoStorage.LocalPhotoStorageService.constructor | home-photo-server/Sources/HomePhotoServer/Services/LocalPhotoStorageService.swift:10-20 | the service keeps its paths, processor, files and records |
| PhotoStorage.LocalPhotoStorageService.SelectedRecords | home-photo-server/Sources/HomePhotoServer/Services/LocalPhotoStorageService.swift:30-45 | the loaded records filtered by year and month, each exactly once |
| PhotoStorage.LocalPhotoStorageService.ListPhotos | home-photo-server/Sources/HomePhotoServer/Services/LocalPhotoStorageService.swift:22-74 | total counts the filtered records; the page is window (page-1)*perPage of a sorted permutation of them, empty past the end |
| PhotoStorage.LocalPhotoStorageService.GetPhoto | home-photo-server/Sources/HomePhotoServer/Services/LocalPhotoStorageService.swift:76-81 | the stored photo, or not found |
| PhotoStorage.LocalPhotoStorageService.GetPhotoFilePath | home-photo-server/Sources/HomePhotoServer/Services/LocalPhotoStorageService.swift:83-95 | not found for an unknown id; the full path when the file exists; a storage error otherwise |
| PhotoStorage.LocalPhotoStorageService.PhotoExists | home-photo-server/Sources/HomePhotoServer/Services/LocalPhotoStorageService.swift:97-104 | true exactly when the record exists and its file is on disk |
| PhotoStorage.LocalPhotoStorageService.GetThumbnailFilePath | home-photo-server/Sources/HomePhotoServer/Services/LocalPhotoStorageService.swift:199-215 | not found for an unknown id; thumbnail not found when none is recorded or the file is missing; else the path |
| PhotoStorage.LocalPhotoStorageService.FindByChecksum | home-photo-server/Sources/HomePhotoServer/Services/LocalPhotoStorageService.swift:219-225 | a photo exactly when some record has the checksum, and then one of those |
| PhotoStorage.LocalPhotoStorageService.UploadPhoto | home-photo-server/Sources/HomePhotoServer/Services/LocalPhotoStorageService.swift:108-168 | duplicate content is refused with the existing id and nothing written; each failure step's files and records; success writes original, thumbnail and one record; distinct checksums are kept |
| PhotoStorage.LocalPhotoStorageService.StoreNewPhoto | home-photo-server/Sources/HomePhotoServer/Services/LocalPhotoStorageService.swift:126-168 | the write steps: a failed original write changes nothing, a failed thumbnail removes the original again, otherwise both files and the record |
| PhotoStorage.LocalPhotoStorageService.StoreThumbnailAndRecord | home-photo-server/Sources/HomePhotoServer/Services/LocalPhotoStorageService.swift:135-168 | a failed thumbnail removes the just-written original and saves no record; otherwise the thumbnail and exactly one record are added |
| PhotoStorage.LocalPhotoStorageService.DeletePhoto | home-photo-server/Sources/HomePhotoServer/Services/LocalPhotoStorageService.swift:172-195 | not found for an unknown id; a failing removal of an existing original or thumbnail returns its error, keeps the record and keeps every file not yet removed; otherwise original, thumbnail and record are gone, and a failed store write is reported |
| PhotoStorage.UploadThenRetrieve | home-photo-server/Sources/HomePhotoServer/Services/LocalPhotoStorageService.swift:108-168 | an uploaded photo is then fetched unchanged, has a thumbnail, and a re-upload is refused as a duplicate of it |
| ListQuery.ValidatedPage | cloud-photo-server/Sources/CloudPhotoServer/DTOs/PhotoListQuery.swift:13-15 | page at least 1; the given page when positive, else 1 |
| ListQuery.ValidatedPerPage | cloud-photo-server/Sources/CloudPhotoServer/DTOs/PhotoListQuery.swift:18-20 | clamped to 1..100, 50 when absent |
| ListQuery.ValidatedSortBy | cloud-photo-server/Sources/CloudPhotoServer/DTOs/PhotoListQuery.swift:23-26 | a known raw value is kept, anything else is createdAt |
| ListQuery.ValidatedOrder | cloud-photo-server/Sources/CloudPhotoServer/DTOs/PhotoListQuery.swift:29-32 | asc or desc is kept, anything else is desc |
| ListQuery.ValidationIdempotent | cloud-photo-server/Sources/CloudPhotoServer/DTOs/PhotoListQuery.swift:13-32 | validating an already validated query changes nothing |
| Pagination.MakePaginationInfo | home-photo-server/Sources/HomePhotoServer/Models/PaginatedResponse.swift:58-65 | a next page exactly when page < totalPages, a previous page exactly when page > 1 |
| Pagination.TotalPages | home-photo-server/Sources/HomePhotoServer/Models/PaginatedResponse.swift:62 | the page count; TotalPagesIsCeiling states it is the ceiling of items over page size, 0 for a non-positive size |
| Pagination.TotalPagesIsCeiling | home-photo-server/Sources/HomePhotoServer/Models/PaginatedResponse.swift:62 | totalPages is the fewest pages of perPage that hold every item; 0 for a non-positive page size |
| Pagination.EmptyListingHasNoNextPage | home-photo-server/Sources/HomePhotoServer/Models/PaginatedResponse.swift:62-63 | an empty listing has no pages and, from page 0 up, no next page |
| Pagination.DocumentedExample | home-photo-server/Sources/HomePhotoServer/Models/PaginatedResponse.swift:12-17 | 150 items at 20 per page: 8 pages, next but no previous page on page 1 |
| Pagination.NinetyFiveItemsExample | home-photo-server/Sources/HomePhotoServer/Models/PaginatedResponse.swift:58-65 | 95 items at 50 per page: two pages, page 2 the last |
| UploadValidator.Validate | home-photo-server/Sources/HomePhotoServer/DTOs/PhotoUploadResponse.swift:32-48 | accepted exactly when the type is allowed, the size at most 50 MiB and the filename non-empty; rejections are 400s |
| UploadValidator.FirstFailingCheckDecides | home-photo-server/Sources/HomePhotoServer/DTOs/PhotoUploadResponse.swift:32-48 | the type check comes first, then size, then filename, each with its message |
| UploadValidator.MissingContentTypeRejected | home-photo-server/Sources/HomePhotoServer/DTOs/PhotoUploadResponse.swift:34-37 | a missing content type counts as application/octet-stream and is refused |
| UploadValidator.SizeBoundInclusive | home-photo-server/Sources/HomePhotoServer/DTOs/PhotoUploadResponse.swift:29-42 | exactly 50 MiB passes, one byte more is too large |
| UploadValidator.PlainTextRejected | home-photo-server/Sources/HomePhotoServer/DTOs/PhotoUploadResponse.swift:35-37 | text/plain is refused with 400 |
| HomeAppError.Status | home-photo-server/Sources/HomePhotoServer/Models/AppError.swift:45-56 | 404 for missing photo or thumbnail, 500 for storage and processing, 400 for bad requests, 409 for duplicates |
| HomeAppError.Reason | home-photo-server/Sources/HomePhotoServer/Models/AppError.swift:59-74 | the reason per case, stated by ReasonCarriesPayload and DuplicateReasonInjective |
| HomeAppError.ReasonCarriesPayload | home-photo-server/Sources/HomePhotoServer/Models/AppError.swift:59-74 | the two not-found reasons are their fixed texts; messages are passed on; the duplicate and processing reasons are their prefix followed by the id or message |
| HomeAppError.DuplicateReasonInjective | home-photo-server/Sources/HomePhotoServer/Models/AppError.swift:69-70 | the duplicate reason identifies the existing id |
| CloudAppError.Status | cloud-photo-server/Sources/CloudPhotoServer/Models/AppError.swift:9-18 | 404 exactly for not found, 500 for storage, 400 for bad requests |
| CloudAppError.Reason | cloud-photo-server/Sources/CloudPhotoServer/Models/AppError.swift:20-29 | the fixed not-found text, otherwise the carried message |
| HomeStorageConfig.MakeStorageConfig | home-photo-server/Sources/HomePhotoServer/Config/StorageConfig.swift:18-22 | originals under base/photos/originals, thumbnails under base/thumbnails |
| HomeStorageConfig.DirectoriesSeparate | home-photo-server/Sources/HomePhotoServer/Config/StorageConfig.swift:18-22 | neither directory lies inside the other |
| HomeStorageConfig.DefaultBasePathFrom | home-photo-server/Sources/HomePhotoServer/Config/StorageConfig.swift:29-34 | PHOTO_STORAGE_PATH when set, else /app/data |
| CloudStorageConfig.MakeStorageConfig | cloud-photo-server/Sources/CloudPhotoServer/Config/StorageConfig.swift:11-16 | originals, thumbnails and metadata.json under the base path |
| CloudStorageConfig.DerivedPathsDistinct | cloud-photo-server/Sources/CloudPhotoServer/Config/StorageConfig.swift:11-16 | the three derived paths extend the base and are pairwise different |
| CloudStorageConfig.DefaultBasePathFrom | cloud-photo-server/Sources/CloudPhotoServer/Config/StorageConfig.swift:19-25 | PHOTO_STORAGE_PATH when set, else the home directory's Application Support folder |
| FluentModels.ExifDataModel.ToDTO | home-photo-server/Sources/HomePhotoServer/Models/Fluent/ExifDataModel.swift:108-122 | every EXIF field is copied from the row |
| FluentModels.ExifDataModel.FromDTO | home-photo-server/Sources/HomePhotoServer/Models/Fluent/ExifDataModel.swift:91-105 | the row belongs to the photo and converts back to the same EXIF data |
| FluentModels.PhotoMetadataModel.ToDTO | home-photo-server/Sources/HomePhotoServer/Models/Fluent/PhotoMetadataModel.swift:99-114 | a missing id or creation date is replaced by the given substitute; name, type, size, dimensions, `takenAt`, checksum, storage path and thumbnail path are copied, and the EXIF is the one passed in |
| FluentModels.PhotoMetadataModel.FromDTO | home-photo-server/Sources/HomePhotoServer/Models/Fluent/PhotoMetadataModel.swift:84-96 | the row keeps the id and leaves the creation date to the database |
| FluentModels.PhotoMetadataModel.StampCreated | home-photo-server/Sources/HomePhotoServer/Models/Fluent/PhotoMetadataModel.swift:57-58 | the creation timestamp is set on insert |
| FluentModels.StoreAndLoad | home-photo-server/Sources/HomePhotoServer/Models/Fluent/PhotoMetadataModel.swift:84-114 | a record stored and read back is the same record with the database's creation date |
| FluentModels.StoreAndLoadExif | home-photo-server/Sources/HomePhotoServer/Models/Fluent/ExifDataModel.swift:91-122 | EXIF stored and read back is unchanged and still belongs to its photo |
| SyncStatus.Description | home-photo-app/HomePhotoApp/Core/Models/SyncState.swift:21-36 | an error reads "Error: " and its message; no other status starts like that |
| SyncStatus.DescriptionInjective | home-photo-app/HomePhotoApp/Core/Models/SyncState.swift:21-36 | different statuses have different descriptions |
| SyncStatus.IsActive | home-photo-app/HomePhotoApp/Core/Models/SyncState.swift:38-43 | active exactly while syncing |
| SyncStatus.InitialState | home-photo-app/HomePhotoApp/Core/Models/SyncState.swift:3-11 | disabled, idle, all counters 0, no current photo |
| SyncStatus.OverallProgress | home-photo-app/HomePhotoApp/Core/Models/SyncState.swift:46-49 | 0 without items, else uploaded/total, within [0,1] when the counts are consistent |
| UploadLedger.Mark | CloudPhotoApp/CloudPhotoApp/Services/Sync/UploadStateStore.swift:33-42 | the entry for the id with the server id, checksum and time; MarkIsUpsert and MarkRecordsChecksum state what it changes |
| UploadLedger.MarkIsUpsert | CloudPhotoApp/CloudPhotoApp/Services/Sync/UploadStateStore.swift:33-42 | marking inserts or replaces exactly one entry and leaves the others |
| UploadLedger.MarkRecordsChecksum | CloudPhotoApp/CloudPhotoApp/Services/Sync/UploadStateStore.swift:25-42 | after marking, the checksum is known, and so is every other entry's checksum |
| UploadLedger.UploadStateStore.constructor | CloudPhotoApp/CloudPhotoApp/Services/Sync/UploadStateStore.swift:60-72 | starts from the decoded file, or empty |
| UploadLedger.UploadStateStore.GetUploadedIdentifiers | CloudPhotoApp/CloudPhotoApp/Services/Sync/UploadStateStore.swift:21-23 | the ledger's keys |
| UploadLedger.UploadStateStore.ExistsChecksum | CloudPhotoApp/CloudPhotoApp/Services/Sync/UploadStateStore.swift:25-27 | true exactly when some entry has the checksum |
| UploadLedger.UploadStateStore.ExistsLocalIdentifier | CloudPhotoApp/CloudPhotoApp/Services/Sync/UploadStateStore.swift:29-31 | true exactly when the asset has an entry |
| UploadLedger.UploadStateStore.MarkAsUploaded | CloudPhotoApp/CloudPhotoApp/Services/Sync/UploadStateStore.swift:33-42 | the entry for the asset is replaced or added |
| UploadLedger.UploadStateStore.Remove | CloudPhotoApp/CloudPhotoApp/Services/Sync/UploadStateStore.swift:44-47 | only that asset's entry is gone |
| UploadLedger.UploadStateStore.GetUploadedCount | CloudPhotoApp/CloudPhotoApp/Services/Sync/UploadStateStore.swift:49-51 | the number of entries |
| UploadLedger.UploadStateStore.ClearAll | CloudPhotoApp/CloudPhotoApp/Services/Sync/UploadStateStore.swift:53-56 | no entries, so no checksum is known |
| PhotoLibrary.MimeTypeFor | home-photo-app/HomePhotoApp/Services/PhotoLibrary/PhotoLibraryService.swift:64-79 | png, heic/heif and webp UTIs map to their types; everything else, or no UTI, is image/jpeg |
| PhotoLibrary.ExportedTypeAccepted | home-photo-app/HomePhotoApp/Services/PhotoLibrary/PhotoLibraryService.swift:64-79 | every type the device sends passes the server's type check |
| PhotoLibrary.FallbackExtension | home-photo-app/HomePhotoApp/Services/PhotoLibrary/PhotoLibraryService.swift:87-97 | the fallback extension is one of jpg, png, heic, webp |
| PhotoLibrary.Prefix8 | home-photo-app/HomePhotoApp/Services/PhotoLibrary/PhotoLibraryService.swift:99 | the first eight characters of the identifier, or all of a shorter one |
| PhotoLibrary.Filename | home-photo-app/HomePhotoApp/Services/PhotoLibrary/PhotoLibraryService.swift:81-100 | the original filename when known, else "IMG_", then the identifier's first eight characters, then "." and the extension for the type |
| PhotoLibrary.FallbackExtensionMatchesMime | home-photo-app/HomePhotoApp/Services/PhotoLibrary/PhotoLibraryService.swift:87-97 | the fallback extension is the one the server derives from the sent MIME type |
| PhotoLibrary.FallbackNameKeepsExtension | home-photo-app/HomePhotoApp/Services/PhotoLibrary/PhotoLibraryService.swift:99 | the server stores a fallback-named upload under the fallback extension |
| Sync.ErrorDescription | CloudPhotoApp/CloudPhotoApp/Services/Sync/SyncEngine.swift:198-210 | each case has its fixed text, and the two texts differ |
| Sync.ToUpload | CloudPhotoApp/CloudPhotoApp/Services/Sync/SyncEngine.swift:121-131 | the upload set is exactly the library assets missing from the ledger, in library order |
| Sync.ToUploadComposes | CloudPhotoApp/CloudPhotoApp/Services/Sync/SyncEngine.swift:121-131 | diffing against a grown ledger is the earlier upload set minus the new ids, in the same order |
| Sync.ToUploadDistinct | CloudPhotoApp/CloudPhotoApp/Services/Sync/SyncEngine.swift:121-131 | a library without repeats gives an upload set without repeats |
| Sync.PushResult | CloudPhotoApp/CloudPhotoApp/Services/Sync/SyncEngine.swift:188-193 | newest first, at most 50, the older results shifted by one with the oldest evicted |
| Sync.ItemOutcomeOf | CloudPhotoApp/CloudPhotoApp/Services/Sync/SyncEngine.swift:134-174 | a known checksum is skipped without the server and with no server id; a recorded entry carries the asset id and the time, and the server id exactly for a success |
| Sync.ItemOutcomeClassified | CloudPhotoApp/CloudPhotoApp/Services/Sync/SyncEngine.swift:134-174 | a failed export fails the item with its error; otherwise the item is recorded exactly when the checksum is known or the server does not fail it, skipped exactly when the checksum is known or the server reports a duplicate, else a success with the server's photo; an upload error fails it with the server's description; a recorded entry holds the checksum |
| Sync.PassCounts | CloudPhotoApp/CloudPhotoApp/Services/Sync/SyncEngine.swift:60-71 | every attempted item is counted once, as uploaded or failed |
| Sync.PassLedgerGrows | CloudPhotoApp/CloudPhotoApp/Services/Sync/SyncEngine.swift:60-71 | a pass forgets no ledger entry and adds only attempted ids |
| Sync.PassEntries | CloudPhotoApp/CloudPhotoApp/Services/Sync/SyncEngine.swift:60-71 | an attempted asset has a ledger entry afterwards exactly when it was recorded at its turn, with that entry |
| Sync.PassLedgerSize | CloudPhotoApp/CloudPhotoApp/Services/Sync/SyncEngine.swift:60-71 | the ledger grows by exactly the uploaded count |
| Sync.UntilFailureIsPassPrefix | CloudPhotoApp/CloudPhotoApp/Services/Sync/SyncEngine.swift:103-105 | a background run without error is the full pass, and it never counts a failure |
| Sync.UntilFailureStops | CloudPhotoApp/CloudPhotoApp/Services/Sync/SyncEngine.swift:103-105 | once a run has failed, later items change nothing |
| Sync.LastStarted | CloudPhotoApp/CloudPhotoApp/Services/Sync/SyncEngine.swift:103-105 | the asset `currentPhotoId` names after a run; LastStartedIsFailingOrLast states which |
| Sync.LastStartedIsFailingOrLast | CloudPhotoApp/CloudPhotoApp/Services/Sync/SyncEngine.swift:103-105 | after a run without failure the current photo is the last item (unchanged for none); after a stopped run it is the failing item, every earlier one recorded |
| Sync.LastStartedStops | CloudPhotoApp/CloudPhotoApp/Services/Sync/SyncEngine.swift:103-105 | once a run has stopped, later items leave the current photo as it was |
| Sync.Attempted | CloudPhotoApp/CloudPhotoApp/Services/Sync/SyncEngine.swift:60-61 | without a pause every item is started |
| Sync.SyncEngine.constructor | CloudPhotoApp/CloudPhotoApp/Services/Sync/SyncEngine.swift:9-19 | initial state, no recent results, not observing |
| Sync.SyncEngine.AddUploadResult | CloudPhotoApp/CloudPhotoApp/Services/Sync/SyncEngine.swift:188-193 | the recent list becomes the pushed list and stays within 50 |
| Sync.SyncEngine.UploadItem | CloudPhotoApp/CloudPhotoApp/Services/Sync/SyncEngine.swift:134-174 | ledger and recent results move by one step of the outcome; the call succeeds exactly when the item is recorded |
| Sync.SyncEngine.FindPhotosToUpload | CloudPhotoApp/CloudPhotoApp/Services/Sync/SyncEngine.swift:115-132 | refused without library access, otherwise the upload set |
| Sync.SyncEngine.PauseSync | CloudPhotoApp/CloudPhotoApp/Services/Sync/SyncEngine.swift:81-85 | syncing becomes paused; any other status is kept |
| Sync.SyncEngine.TriggerManualSync | CloudPhotoApp/CloudPhotoApp/Services/Sync/SyncEngine.swift:48-79 | no-op while syncing; access denied gives the error status; otherwise the pass over the items before the pause, uploaded + failed + pending = total, idle afterwards |
| Sync.SyncEngine.AttemptItems | CloudPhotoApp/CloudPhotoApp/Services/Sync/SyncEngine.swift:57-71 | the counters, ledger and recent results are the pass over the items started before the pause |
| Sync.SyncEngine.CountedUpload | CloudPhotoApp/CloudPhotoApp/Services/Sync/SyncEngine.swift:63-70 | one item advances the counters, ledger and recent results by one step |
| Sync.SyncEngine.ResumeSync | CloudPhotoApp/CloudPhotoApp/Services/Sync/SyncEngine.swift:87-92 | acts only when paused, and then ends idle or in error |
| Sync.SyncEngine.EnableAutoSync | CloudPhotoApp/CloudPhotoApp/Services/Sync/SyncEngine.swift:23-46 | records the flag and observes the library exactly when enabled |
| Sync.SyncEngine.HandleNewPhotos | CloudPhotoApp/CloudPhotoApp/Services/Sync/SyncEngine.swift:176-186 | with auto-sync on, the full pass over the new assets, failures not stopping it, the current photo the last asset; otherwise nothing; observation and the last sync date unchanged either way |
| Sync.SyncEngine.PerformBackgroundSync | CloudPhotoApp/CloudPhotoApp/Services/Sync/SyncEngine.swift:96-111 | as written: the first 50 items until the first error; idle and the sync date only without error, syncing left set and the date kept on error; the current photo is the last item started (the failing one on error); counters, flag and observation unchanged |
| Sync.SyncEngine.PerformBackgroundSyncResetting | CloudPhotoApp/CloudPhotoApp/Services/Sync/SyncEngine.swift:96-111 | the same run, but the status always leaves syncing: idle with the sync date on success, the error with the date kept otherwise; the current photo is the last item started; counters, flag and observation unchanged |
| Sync.SyncEngine.UploadUntilFailure | CloudPhotoApp/CloudPhotoApp/Services/Sync/SyncEngine.swift:103-105 | ledger and recent results follow the run up to the first failure, the result is that failure, and the current photo is the last item started |
| Sync.BackgroundFailureBlocksManualSync | CloudPhotoApp/CloudPhotoApp/Services/Sync/SyncEngine.swift:96-111 | after a failed background pass the status is stuck at syncing and a manual pass uploads nothing |
| Sync.BackgroundFailureThenManualSync | CloudPhotoApp/CloudPhotoApp/Services/Sync/SyncEngine.swift:48-111 | with the reset, the manual pass after a failed background pass runs and ends idle |
| Gallery.GalleryViewModel.constructor | home-photo-app/HomePhotoApp/Features/Gallery/GalleryViewModel.swift:5-14 | empty grid on page 1, more pages assumed |
| Gallery.GalleryViewModel.Refresh | home-photo-app/HomePhotoApp/Features/Gallery/GalleryViewModel.swift:21-37 | as written: page 1 replaces the grid on success; on failure the old photos stay but the page counter is 1 |
| Gallery.GalleryViewModel.RefreshKeepingPage | home-photo-app/HomePhotoApp/Features/Gallery/GalleryViewModel.swift:21-37 | a successful refresh shows exactly page 1 of the listing; a failed one keeps the paged grid |
| Gallery.GalleryViewModel.LoadInitial | home-photo-app/HomePhotoApp/Features/Gallery/GalleryViewModel.swift:16-19 | a non-empty grid is left entirely unchanged; an empty grid is refreshed with page 1, and a failed request leaves it empty with the error |
| Gallery.GalleryViewModel.LoadMore | home-photo-app/HomePhotoApp/Features/Gallery/GalleryViewModel.swift:52-66 | appends the next page and advances the counter on success; keeps the grid the first pages of the listing |
| Gallery.GalleryViewModel.LoadMoreIfNeeded | home-photo-app/HomePhotoApp/Features/Gallery/GalleryViewModel.swift:39-50 | loads exactly when the shown photo is the last, more pages exist and no load is running; when it loads, LoadMore's outcome for both replies, otherwise nothing changes |
| Gallery.FailedRefreshDuplicatesPage | home-photo-app/HomePhotoApp/Features/Gallery/GalleryViewModel.swift:21-37 | as written: two pages shown, a failed refresh then a scroll gives 150 photos with page 2 shown twice |
| Gallery.FailedRefreshKeepsPages | home-photo-app/HomePhotoApp/Features/Gallery/GalleryViewModel.swift:21-37 | with the corrected refresh the same steps show pages 1-3 once each |

## Left out

- **I/O and encodings.** File and network I/O, JSON syntax and date encoding are left out. The
  model uses maps of bytes, decoded lists, and write failures given as inputs.
- **Directory creation.** `saveFile` and `persist` create directories; the model does not.
- **Failures the service never reports.** The upload's cleanup after a failed thumbnail uses
  `try? removeItem`, so a failing removal there is ignored; the model leaves it out as well.
  `deletePhoto`'s removals do report their failures, and the model includes them.
- **Metadata store inside the storage service.** The service's store is modelled as its loaded
  record map. The store's own load and write errors are modelled on
  `MetadataStore.JSONMetadataStore`; the service models only the final write's failure.
- **Duplicate ids in the metadata file.** `Dictionary(uniqueKeysWithValues:)` traps on a
  repeated id. The model reports that as the `DuplicateIds` error.
- **Concurrency.** Actor isolation, `Task` spawning and interleaving of concurrent requests
  are left out. Operations run one at a time, and a pause arrives only between items.
- **Background budget.** The background task's expiration handler and task cancellation are
  left out; `syncTask` is never assigned in the source.
- **Persistence of the sync engine's settings.** `SettingsManager` persistence is not part of
  this model. The last sync date is a field of the engine.
- **Ledger persistence.** `UploadStateStore.saveToDisk` is left out because its failures are
  only printed. `loadFromDisk` becomes the constructor's optional decoded ledger.
- **External components.** Image decoding, EXIF parsing, thumbnail rendering, SHA-256 itself,
  PhotoKit enumeration and the HTTP client are inputs given as functions.
- **Fluent database.** Queries and migrations are left out. `StoreAndLoad` models a row stored
  and read back.
- **Floating point.** `Double` arithmetic in `overallProgress` becomes exact `real`
  division. `ceil` in `totalPages` becomes exact integer ceiling, which agrees for counts
  below 2^53.
- **Result identity.** `UploadResult.id` only gives SwiftUI's list a stable identity; it is
  not part of this model.
- **Integer widths.** `Int` and `Int64` become unbounded integers.
- **String comparison.** `String <` becomes code-point lexicographic order, without Unicode
  canonical equivalence. `lowercased()` is modelled on ASCII letters only.
- **Path extensions.** `NSString.pathExtension` is modelled as the text after the last '.'
  of the last path component. Its special cases for trailing slashes and leading dots are not
  modelled.
- PhotoStorage.LocalPhotoStorageService.ListPhotos: requires `page >= 1` and
  `perPage >= 1`, which the controller guarantees through the validated query. It states
  the page's order only up to ties, because Swift's sort is not stable and the descending
  closure is not strict.
- Sync.SyncEngine.ResumeSync: the source starts the manual pass in a new task; the model runs
  it inline, and its contract states only that a resumed pass ends idle or in error.
- Gallery.GalleryViewModel.LoadMoreIfNeeded: the source starts `loadMore` in a new task; the
  model runs it inline, so the `isLoadingMore` guard never sees a load in flight.
- SyncStatus.Description: the contract states the error text and that no other status text
  starts like it; the other statuses' fixed texts appear only in its body.

## Findings

| source | as written | input that shows it | evidently intended | confidence | as-written member | corrected member |
|---|---|---|---|---|---|---|
| CloudPhotoApp/CloudPhotoApp/Services/Sync/SyncEngine.swift:96-111 | the status is set to syncing, and an error thrown by the access check or by any item leaves the function without resetting it; later, `triggerManualSync` returns at once because the status is syncing | a background pass with photo library access denied (or any failing item), then a manual sync | a failed background pass ends in `.error(description)` (or idle), as the manual pass does, so later passes can run | high (not executed) | Sync.BackgroundFailureBlocksManualSync | Sync.SyncEngine.PerformBackgroundSyncResetting |
| home-photo-app/HomePhotoApp/Features/Gallery/GalleryViewModel.swift:24 | `currentPage = 1` is set before the request; when the request fails, the photos of pages 1..k stay on screen but the counter says page 1, so the next `loadMore` fetches page 2 again and appends it | more than 100 photos with pages 1-2 shown, a refresh that fails, then scrolling to the last photo: 150 photos, the 51st and the 101st being the same | the counter is reset together with the photos, only on success | high (not executed) | Gallery.FailedRefreshDuplicatesPage | Gallery.GalleryViewModel.RefreshKeepingPage |

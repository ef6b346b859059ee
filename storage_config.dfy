/**
 * The home server's `StorageConfig`: where originals and thumbnails live under a base path.
 */
module HomeStorageConfig {
  import opened Wrappers

  datatype StorageConfig = StorageConfig(basePath: string, photosPath: string, thumbnailsPath: string)

  const PhotosSuffix: string := "/photos/originals"
  const ThumbnailsSuffix: string := "/thumbnails"
  const DefaultBasePath: string := "/app/data"

  /** `StorageConfig(basePath:)` */
  function MakeStorageConfig(basePath: string): (c: StorageConfig)
    ensures c.basePath == basePath
    ensures c.photosPath == basePath + PhotosSuffix && c.thumbnailsPath == basePath + ThumbnailsSuffix
  {
    StorageConfig(basePath, basePath + PhotosSuffix, basePath + ThumbnailsSuffix)
  }

  /** Neither string is a prefix of the other (so neither directory lies inside the other). */
  predicate Unrelated(a: string, b: string) {
    !(a <= b) && !(b <= a)
  }

  /**
   * The original and thumbnail directories are distinct, neither is a prefix of the other,
   * and the same holds of them with a trailing separator, so that no file path under one
   * can name a file under the other.
   */
  lemma DirectoriesSeparate(basePath: string)
    ensures Unrelated(MakeStorageConfig(basePath).photosPath, MakeStorageConfig(basePath).thumbnailsPath)
    ensures Unrelated(MakeStorageConfig(basePath).photosPath + "/", MakeStorageConfig(basePath).thumbnailsPath + "/")
  {
    var c := MakeStorageConfig(basePath);
    var k := |basePath| + 1;
    assert c.photosPath[k] == 'p' && c.thumbnailsPath[k] == 't';
    assert (c.photosPath + "/")[k] == 'p' && (c.thumbnailsPath + "/")[k] == 't';
  }

  /** `defaultBasePath()`: `PHOTO_STORAGE_PATH` when set, `/app/data` otherwise. */
  function DefaultBasePathFrom(photoStoragePath: Option<string>): (p: string)
    ensures photoStoragePath.Some? ==> p == photoStoragePath.value
    ensures photoStoragePath.None? ==> p == DefaultBasePath
  {
    photoStoragePath.GetOr(DefaultBasePath)
  }
}

/**
 * The cloud server's `StorageConfig`, which also places the JSON metadata file.
 */
module CloudStorageConfig {
  import opened Wrappers

  datatype StorageConfig = StorageConfig(
    basePath: string, photosPath: string, thumbnailsPath: string, metadataPath: string)

  const PhotosSuffix: string := "/photos/originals"
  const ThumbnailsSuffix: string := "/thumbnails"
  const MetadataSuffix: string := "/metadata.json"
  const AppSupportSuffix: string := "/Library/Application Support/CloudPhotoServer"

  /** `StorageConfig(basePath:)` */
  function MakeStorageConfig(basePath: string): (c: StorageConfig)
    ensures c.basePath == basePath
    ensures c.photosPath == basePath + PhotosSuffix
    ensures c.thumbnailsPath == basePath + ThumbnailsSuffix
    ensures c.metadataPath == basePath + MetadataSuffix
  {
    StorageConfig(basePath, basePath + PhotosSuffix, basePath + ThumbnailsSuffix, basePath + MetadataSuffix)
  }

  /** The three derived paths all start with the base path and are pairwise distinct. */
  lemma DerivedPathsDistinct(basePath: string)
    ensures var c := MakeStorageConfig(basePath);
      basePath <= c.photosPath && basePath <= c.thumbnailsPath && basePath <= c.metadataPath &&
      c.photosPath != c.thumbnailsPath && c.photosPath != c.metadataPath && c.thumbnailsPath != c.metadataPath
  {
    var c := MakeStorageConfig(basePath);
    var k := |basePath| + 1;
    assert c.photosPath[k] == 'p' && c.thumbnailsPath[k] == 't' && c.metadataPath[k] == 'm';
  }

  /** `defaultBasePath()`: `PHOTO_STORAGE_PATH` when set, else under the user's Application Support. */
  function DefaultBasePathFrom(photoStoragePath: Option<string>, home: string): (p: string)
    ensures photoStoragePath.Some? ==> p == photoStoragePath.value
    ensures photoStoragePath.None? ==> p == home + AppSupportSuffix
  {
    match photoStoragePath
    case Some(custom) => custom
    case None => home + AppSupportSuffix
  }
}

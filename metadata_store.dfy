/**
 * `JSONMetadataStore`: an actor holding an id-keyed cache of metadata records that is loaded
 * lazily from one JSON file and rewritten in full after every change. The file is modelled by
 * what decoding it yields; JSON syntax and ISO-8601 dates are not modelled.
 */
module MetadataStore {
  import opened Wrappers
  import opened PhotoModel
  import opened RecordLists

  /** The metadata file as the store finds it on disk. */
  datatype StoredFile =
    | Missing                              // no file at the path
    | Unreadable                           // reading or JSON decoding throws
    | Stored(records: seq<PhotoMetadata>)  // a decodable list of records

  datatype StoreError =
    | ReadFailed      // `Data(contentsOf:)` or `JSONDecoder.decode` threw
    | DuplicateIds    // the stored list repeats an id: `Dictionary(uniqueKeysWithValues:)` halts
    | WriteFailed     // creating the directory or writing the file threw

  /**
   * What `ensureLoaded` makes of the file: no file is an empty store, a list with distinct ids
   * becomes the dictionary with one entry per record, and a list that repeats an id is refused
   * rather than merged.
   */
  function Decode(f: StoredFile): (r: Result<Catalog, StoreError>)
    ensures f.Missing? ==> r == Ok(map[])
    ensures f.Unreadable? ==> r == Err(ReadFailed)
    ensures f.Stored? ==> (r.Ok? <==> UniqueIds(f.records))
    ensures f.Stored? && !UniqueIds(f.records) ==> r == Err(DuplicateIds)
    ensures f.Stored? && r.Ok? ==>
      KeyedById(r.value) && |r.value| == |f.records| &&
      forall i :: 0 <= i < |f.records| ==> f.records[i].id in r.value && r.value[f.records[i].id] == f.records[i]
  {
    match f
    case Missing => Ok(map[])
    case Unreadable => Err(ReadFailed)
    case Stored(records) =>
      if UniqueIds(records) then
        UniqueListSize(records);
        assert forall i :: 0 <= i < |records| ==> records[i].id in ListToMap(records) && ListToMap(records)[records[i].id] == records[i] by {
          forall i | 0 <= i < |records| ensures records[i].id in ListToMap(records) && ListToMap(records)[records[i].id] == records[i] {
            ListToMapAt(records, i);
          }
        }
        Ok(ListToMap(records))
      else Err(DuplicateIds)
  }

  /** The file `persist` writes for a cache: its values as a list, one per id. */
  predicate Persists(f: StoredFile, cache: Catalog) {
    f.Stored? && UniqueIds(f.records) && ListToMap(f.records) == cache
  }

  /**
   * Reloading what `persist` wrote gives back the cache it was written from, whatever order
   * the dictionary listed its values in.
   */
  lemma PersistedFileReloads(f: StoredFile, cache: Catalog)
    requires Persists(f, cache)
    ensures Decode(f) == Ok(cache)
    ensures |f.records| == |cache|
  {
    UniqueListSize(f.records);
  }

  class JSONMetadataStore {
    var cache: Catalog
    var isLoaded: bool
    var file: StoredFile

    ghost predicate Valid()
      reads this
    {
      KeyedById(cache) && (!isLoaded ==> cache == map[])
    }

    /** The contents the store answers with: the cache once loaded, else what loading would give. */
    ghost function Contents(): Result<Catalog, StoreError>
      reads this
    {
      if isLoaded then Ok(cache) else Decode(file)
    }

    constructor (file: StoredFile)
      ensures Valid() && !isLoaded && cache == map[] && this.file == file
    {
      this.cache := map[];
      this.isLoaded := false;
      this.file := file;
    }

    /**
     * Loads the file at most once. Once loaded nothing changes; a failed load leaves the
     * store unloaded so the next call tries again.
     */
    method EnsureLoaded() returns (r: Result<(), StoreError>)
      requires Valid()
      modifies this
      ensures Valid() && file == old(file)
      ensures old(isLoaded) ==> r.Ok? && isLoaded && cache == old(cache)
      ensures old(Contents()).Ok? ==> r.Ok? && isLoaded && cache == old(Contents()).value
      ensures old(Contents()).Err? ==> r == Err(old(Contents()).error) && !isLoaded && cache == old(cache)
    {
      if isLoaded {
        return Ok(());
      }
      var loaded := Decode(file);
      if loaded.Err? {
        return Err(loaded.error);
      }
      cache := loaded.value;
      isLoaded := true;
      r := Ok(());
    }

    /** Rewrites the file with the cache's values; on a write failure the file is unchanged. */
    method Persist(writeFails: bool) returns (r: Result<(), StoreError>)
      requires Valid()
      modifies this`file
      ensures writeFails ==> r == Err(WriteFailed) && file == old(file)
      ensures !writeFails ==> r.Ok? && Persists(file, cache)
    {
      if writeFails {
        return Err(WriteFailed);
      }
      var list := ValuesOf(cache);
      file := Stored(list);
      r := Ok(());
    }

    /** `loadAll`: every cached record exactly once, in the dictionary's order. */
    method LoadAll() returns (r: Result<seq<PhotoMetadata>, StoreError>)
      requires Valid()
      modifies this
      ensures Valid() && file == old(file)
      ensures old(Contents()).Err? ==> r == Err(old(Contents()).error) && cache == old(cache) && !isLoaded
      ensures old(Contents()).Ok? ==>
        isLoaded && cache == old(Contents()).value &&
        r.Ok? && UniqueIds(r.value) && ListToMap(r.value) == cache && |r.value| == |cache|
    {
      var loaded := EnsureLoaded();
      if loaded.Err? {
        return Err(loaded.error);
      }
      var list := ValuesOf(cache);
      r := Ok(list);
    }

    /** `get(id:)`: the record stored under `id`, or none. */
    method Get(id: Uuid) returns (r: Result<Option<PhotoMetadata>, StoreError>)
      requires Valid()
      modifies this
      ensures Valid() && file == old(file)
      ensures old(Contents()).Err? ==> r == Err(old(Contents()).error) && cache == old(cache) && !isLoaded
      ensures old(Contents()).Ok? ==>
        isLoaded && cache == old(Contents()).value &&
        r == Ok(if id in cache then Some(cache[id]) else None)
    {
      var loaded := EnsureLoaded();
      if loaded.Err? {
        return Err(loaded.error);
      }
      r := Ok(if id in cache then Some(cache[id]) else None);
    }

    /**
     * `save`: an upsert keyed by id only (no checksum check). The cache changes before the
     * rewrite, so a failed write leaves the new record in memory but not on disk.
     */
    method Save(m: PhotoMetadata, writeFails: bool) returns (r: Result<(), StoreError>)
      requires Valid()
      modifies this
      ensures Valid()
      ensures old(Contents()).Err? ==>
        r == Err(old(Contents()).error) && cache == old(cache) && file == old(file) && !isLoaded
      ensures old(Contents()).Ok? ==>
        isLoaded && cache == old(Contents()).value[m.id := m] &&
        (if writeFails then r == Err(WriteFailed) && file == old(file) else r.Ok? && Persists(file, cache))
    {
      var loaded := EnsureLoaded();
      if loaded.Err? {
        return Err(loaded.error);
      }
      cache := cache[m.id := m];
      r := Persist(writeFails);
    }

    /**
     * `delete(id:)`: removes that id and no other; an absent id is not an error. The file is
     * rewritten either way.
     */
    method Delete(id: Uuid, writeFails: bool) returns (r: Result<(), StoreError>)
      requires Valid()
      modifies this
      ensures Valid()
      ensures old(Contents()).Err? ==>
        r == Err(old(Contents()).error) && cache == old(cache) && file == old(file) && !isLoaded
      ensures old(Contents()).Ok? ==>
        isLoaded && cache == old(Contents()).value - {id} &&
        (if writeFails then r == Err(WriteFailed) && file == old(file) else r.Ok? && Persists(file, cache))
    {
      var loaded := EnsureLoaded();
      if loaded.Err? {
        return Err(loaded.error);
      }
      cache := cache - {id};
      r := Persist(writeFails);
    }
  }

  /**
   * A store that saves a record and is then reopened on the written file finds the record
   * under its id, next to every record it held before: the reloaded records are the earlier
   * ones with the saved record put under its id.
   */
  method SaveThenReopen(before: StoredFile, m: PhotoMetadata)
    returns (found: Option<PhotoMetadata>, reloaded: Catalog, r: Result<(), StoreError>)
    requires Decode(before).Ok?
    ensures r.Ok? && found == Some(m)
    ensures reloaded == Decode(before).value[m.id := m]
  {
    var store := new JSONMetadataStore(before);
    r := store.Save(m, false);
    var reopened := new JSONMetadataStore(store.file);
    PersistedFileReloads(store.file, store.cache);
    var got := reopened.Get(m.id);
    found := got.value;
    reloaded := Decode(reopened.file).value;
  }
}

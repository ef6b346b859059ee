/**
 * `UploadStateStore`: the client's ledger of uploaded assets, keyed by the photo library's
 * local identifier, with the server id (none when the server already had the photo) and the
 * content checksum.
 */
module UploadLedger {
  import opened Wrappers
  import opened PhotoModel

  datatype UploadedPhoto = UploadedPhoto(
    localIdentifier: string,
    serverPhotoId: Option<Uuid>,
    checksum: string,
    uploadedAt: Date)

  type Ledger = map<string, UploadedPhoto>

  predicate HasChecksum(l: Ledger, checksum: string) {
    exists id :: id in l && l[id].checksum == checksum
  }

  /** The ledger after `markAsUploaded`: the entry for `localId` is (re)written, nothing else changes. */
  function Mark(l: Ledger, localId: string, serverId: Option<Uuid>, checksum: string, now: Date): Ledger {
    l[localId := UploadedPhoto(localId, serverId, checksum, now)]
  }

  /**
   * `markAsUploaded` is an upsert: the id is then known with the given server id and checksum,
   * every other entry is untouched, and the count grows by one exactly when the id was new.
   */
  lemma MarkIsUpsert(l: Ledger, localId: string, serverId: Option<Uuid>, checksum: string, now: Date)
    ensures var m := Mark(l, localId, serverId, checksum, now);
      localId in m && m[localId].serverPhotoId == serverId && m[localId].checksum == checksum &&
      (forall k :: k != localId ==> (k in m <==> k in l) && (k in l ==> m[k] == l[k])) &&
      |m| == if localId in l then |l| else |l| + 1
  {
    var m := Mark(l, localId, serverId, checksum, now);
    if localId in l {
      assert m.Keys == l.Keys;
    } else {
      assert m.Keys == l.Keys + {localId};
    }
  }

  /** A mark makes its checksum known and keeps every checksum that another entry carried. */
  lemma MarkRecordsChecksum(l: Ledger, localId: string, serverId: Option<Uuid>, checksum: string, now: Date, other: string)
    ensures HasChecksum(Mark(l, localId, serverId, checksum, now), checksum)
    ensures (exists k :: k in l && k != localId && l[k].checksum == other) ==>
      HasChecksum(Mark(l, localId, serverId, checksum, now), other)
  {
    var m := Mark(l, localId, serverId, checksum, now);
    assert m[localId].checksum == checksum;
    if exists k :: k in l && k != localId && l[k].checksum == other {
      var k :| k in l && k != localId && l[k].checksum == other;
      assert m[k].checksum == other;
    }
  }

  class UploadStateStore {
    var uploadedPhotos: Ledger

    /**
     * `init()` with `loadFromDisk`: the decoded ledger when the file exists and decodes, else
     * empty (a read or decoding failure is only logged).
     */
    constructor (onDisk: Option<Ledger>)
      ensures uploadedPhotos == onDisk.GetOr(map[])
    {
      uploadedPhotos := onDisk.GetOr(map[]);
    }

    /** `getUploadedIdentifiers`: the key set. */
    method GetUploadedIdentifiers() returns (ids: set<string>)
      ensures ids == uploadedPhotos.Keys
    {
      ids := uploadedPhotos.Keys;
    }

    /** `exists(checksum:)`: some entry carries the checksum. */
    method ExistsChecksum(checksum: string) returns (found: bool)
      ensures found <==> HasChecksum(uploadedPhotos, checksum)
    {
      var rest := uploadedPhotos.Keys;
      found := false;
      while rest != {}
        invariant rest <= uploadedPhotos.Keys
        invariant !found
        invariant forall k :: k in uploadedPhotos && k !in rest ==> uploadedPhotos[k].checksum != checksum
        decreases rest
      {
        var k :| k in rest;
        if uploadedPhotos[k].checksum == checksum {
          return true;
        }
        rest := rest - {k};
      }
    }

    /** `exists(localIdentifier:)`. */
    method ExistsLocalIdentifier(localId: string) returns (found: bool)
      ensures found <==> localId in uploadedPhotos
    {
      found := localId in uploadedPhotos;
    }

    method MarkAsUploaded(localId: string, serverId: Option<Uuid>, checksum: string, now: Date)
      modifies this
      ensures uploadedPhotos == Mark(old(uploadedPhotos), localId, serverId, checksum, now)
    {
      uploadedPhotos := uploadedPhotos[localId := UploadedPhoto(localId, serverId, checksum, now)];
    }

    /** `remove(localIdentifier:)`: deletes that key only; an absent key changes nothing. */
    method Remove(localId: string)
      modifies this
      ensures uploadedPhotos == old(uploadedPhotos) - {localId}
    {
      uploadedPhotos := uploadedPhotos - {localId};
    }

    method GetUploadedCount() returns (n: nat)
      ensures n == |uploadedPhotos|
    {
      n := |uploadedPhotos|;
    }

    /** `clearAll`: afterwards nothing is known, by identifier or by checksum. */
    method ClearAll()
      modifies this
      ensures uploadedPhotos == map[]
      ensures forall c :: !HasChecksum(uploadedPhotos, c)
    {
      uploadedPhotos := map[];
    }
  }
}

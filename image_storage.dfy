/** The shared in-memory image store: uploaded images keyed by id, with a
    seven-day expiry sweep and size statistics. The clock is a parameter. */
module ImageStore {
  import opened Json

  /** Seven days in milliseconds. */
  const MaxAge: int := 7 * 24 * 60 * 60 * 1000

  datatype StoredImage = StoredImage(buffer: seq<Byte>, mimeType: string, originalName: string, uploadTime: int)

  datatype ImageStats = ImageStats(totalImages: nat, totalSize: nat)

  function Lookup(m: map<string, StoredImage>, imageId: string): Option<StoredImage> {
    if imageId in m then Some(m[imageId]) else None
  }

  /** Older than the maximum age at time `now` (strictly). */
  predicate Expired(image: StoredImage, now: int) {
    now - image.uploadTime > MaxAge
  }

  /** The entries a sweep at `now` keeps. */
  function Swept(m: map<string, StoredImage>, now: int): map<string, StoredImage> {
    map k | k in m && !Expired(m[k], now) :: m[k]
  }

  function ExpiredIds(m: map<string, StoredImage>, now: int): set<string> {
    set k | k in m && Expired(m[k], now)
  }

  /** A sweep in progress: the entries still to be looked at are kept. */
  function SweptExcept(m: map<string, StoredImage>, pending: set<string>, now: int): map<string, StoredImage> {
    map k | k in m && (k in pending || !Expired(m[k], now)) :: m[k]
  }

  lemma SweptExceptStep(m: map<string, StoredImage>, pending: set<string>, k: string, now: int)
    requires k in pending && k in m
    ensures SweptExcept(m, pending - {k}, now) ==
      if Expired(m[k], now) then SweptExcept(m, pending, now) - {k} else SweptExcept(m, pending, now)
  {
  }

  lemma MapRemoveCard(m: map<string, StoredImage>, k: string)
    requires k in m
    ensures |m - {k}| == |m| - 1
  {
    assert (m - {k}).Keys == m.Keys - {k};
  }

  /** The sum of the buffer lengths of all entries. */
  ghost function TotalSize(m: map<string, StoredImage>): nat
    decreases |m|
  {
    if m == map[] then 0
    else
      var k := Pick(m);
      |m[k].buffer| + TotalSize(m - {k})
  }

  ghost function Pick(m: map<string, StoredImage>): (k: string)
    requires m != map[]
    ensures k in m
  {
    var k :| k in m; k
  }

  class ImageStorage {
    var storage: map<string, StoredImage>

    constructor ()
      ensures storage == map[]
    {
      storage := map[];
    }

    /** `store`: sets the entry for `imageId`, stamped with `now`, replacing
        any earlier one. */
    method Store(imageId: string, buffer: seq<Byte>, mimeType: string, originalName: string, now: int)
      modifies this
      ensures storage == old(storage)[imageId := StoredImage(buffer, mimeType, originalName, now)]
    {
      storage := storage[imageId := StoredImage(buffer, mimeType, originalName, now)];
    }

    method Get(imageId: string) returns (r: Option<StoredImage>)
      ensures r == Lookup(storage, imageId)
    {
      if imageId in storage {
        r := Some(storage[imageId]);
      } else {
        r := None;
      }
    }

    method Exists(imageId: string) returns (b: bool)
      ensures b <==> Lookup(storage, imageId).Some?
    {
      b := imageId in storage;
    }

    /** `delete`: true exactly when the id was present; the id is gone
        afterwards and every other entry stays. */
    method Delete(imageId: string) returns (removed: bool)
      modifies this
      ensures removed <==> imageId in old(storage)
      ensures storage == old(storage) - {imageId}
    {
      removed := imageId in storage;
      storage := storage - {imageId};
    }

    /** `cleanup`: removes exactly the entries older than seven days and
        returns how many it removed. */
    method Cleanup(now: int) returns (deletedCount: nat)
      modifies this
      ensures storage == Swept(old(storage), now)
      ensures deletedCount == |ExpiredIds(old(storage), now)|
    {
      ghost var original := storage;
      var entries := storage.Keys;
      deletedCount := 0;
      while entries != {}
        invariant storage == SweptExcept(original, entries, now)
        invariant entries <= storage.Keys
        invariant deletedCount + |storage| == |original|
        decreases |entries|
      {
        var imageId :| imageId in entries;
        SweptExceptStep(original, entries, imageId, now);
        if now - storage[imageId].uploadTime > MaxAge {
          MapRemoveCard(storage, imageId);
          storage := storage - {imageId};
          deletedCount := deletedCount + 1;
        }
        entries := entries - {imageId};
      }
      assert storage == Swept(original, now);
      SweepCount(original, now);
    }

    /** `getStats`: the number of entries and the total buffer length. */
    method GetStats() returns (stats: ImageStats)
      ensures stats.totalImages == |storage|
      ensures stats.totalSize == TotalSize(storage)
    {
      var rest := storage;
      var totalSize := 0;
      while rest != map[]
        invariant totalSize + TotalSize(rest) == TotalSize(storage)
        decreases |rest|
      {
        var imageId :| imageId in rest;
        TotalSizeRemove(rest, imageId);
        totalSize := totalSize + |rest[imageId].buffer|;
        rest := rest - {imageId};
      }
      stats := ImageStats(|storage|, totalSize);
    }
  }

  /** After a store, the stored id reads back the new entry and every other
      id reads what it read before. */
  lemma LookupAfterStore(m: map<string, StoredImage>, imageId: string, image: StoredImage, other: string)
    ensures Lookup(m[imageId := image], imageId) == Some(image)
    ensures other != imageId ==> Lookup(m[imageId := image], other) == Lookup(m, other)
  {
  }

  /** After a delete the id reads as absent and every other id is unchanged. */
  lemma LookupAfterDelete(m: map<string, StoredImage>, imageId: string, other: string)
    ensures Lookup(m - {imageId}, imageId) == None
    ensures other != imageId ==> Lookup(m - {imageId}, other) == Lookup(m, other)
  {
  }

  /** A sweep keeps an entry exactly when it is at most seven days old; a
      second sweep at the same time removes nothing. */
  lemma SweepProperties(m: map<string, StoredImage>, now: int)
    ensures forall k :: k in Swept(m, now) <==> k in m && now - m[k].uploadTime <= MaxAge
    ensures Swept(Swept(m, now), now) == Swept(m, now)
    ensures ExpiredIds(Swept(m, now), now) == {}
  {
    assert Swept(Swept(m, now), now).Keys == Swept(m, now).Keys;
  }

  /** The count a sweep reports is the drop in the number of entries. */
  lemma SweepCount(m: map<string, StoredImage>, now: int)
    ensures |ExpiredIds(m, now)| == |m| - |Swept(m, now)|
  {
    var kept := Swept(m, now).Keys;
    var gone := ExpiredIds(m, now);
    assert m.Keys == kept + gone;
    assert kept * gone == {};
    assert |m.Keys| == |kept| + |gone|;
  }

  /** `TotalSize` may be unfolded at any key. */
  lemma {:induction false} TotalSizeRemove(m: map<string, StoredImage>, key: string)
    requires key in m
    ensures TotalSize(m) == |m[key].buffer| + TotalSize(m - {key})
    decreases |m|
  {
    assert m != map[];
    var k := Pick(m);
    if k != key {
      var m1 := m - {k};
      var m2 := m - {key};
      TotalSizeRemove(m1, key);
      TotalSizeRemove(m2, k);
      assert m1 - {key} == m2 - {k};
    }
  }
}

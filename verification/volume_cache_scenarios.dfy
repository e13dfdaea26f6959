/**
 * Client sequences over the volume cache, each proved from the contracts of
 * the operations it calls: sharing of one entry, removal on the last release,
 * the identity check that protects a re-created entry, reloading after an
 * unload, and teardown after the cache itself was disposed.
 */
module VolumeCacheScenarios {
  import opened Wrappers
  import opened CacheKeys
  import opened VolumeCaches

  /**
   * Two requests for the same frames share one entry with count 2. Releasing
   * one handle keeps it; releasing the other queues its teardown, and running
   * that teardown empties the slot, so a third request gets a new entry.
   */
  method SharedEntryIsRemovedAfterLastRelease(digest: string -> Digest, frames: seq<Frame>)
    returns (cache: VolumeCache, first: CachedVolume, third: CachedVolume)
    ensures first != third
    ensures Key(frames, digest) in cache.table && cache.table[Key(frames, digest)] == third
    ensures first.released == multiset(frames) && !first.registered
  {
    cache, first := ReleaseSharedEntry(digest, frames);
    cache.RunTeardown(0, first);
    assert Key(frames, digest) !in cache.table;
    var r3 := cache.CreateVolumeCore(frames, true);
    third := r3.value.cachedVolume;
  }

  /**
   * The first half of the scenario above: both handles on the shared entry
   * are released, so the entry is disposed and its teardown queued.
   */
  method ReleaseSharedEntry(digest: string -> Digest, frames: seq<Frame>)
    returns (cache: VolumeCache, first: CachedVolume)
    ensures fresh(cache) && fresh(first) && cache.Valid() && cache.EntriesValid() && cache.isOpen
    ensures cache.digest == digest && cache.table == map[Key(frames, digest) := first]
    ensures first.Valid() && first.isDisposed && cache.pending == [first]
    ensures first.cacheKey == Key(frames, digest) && first.sourceFrames == frames
  {
    var h1, h2;
    cache, first, h1, h2 := ShareEntry(digest, frames);
    ghost var table := cache.table;
    h1.Dispose();
    assert first.referenceCount == 1 && !first.isDisposed && cache.pending == [];
    assert h2.Valid();
    h2.Dispose();
    assert cache.table == table && cache.isOpen;
  }

  /** Two requests for the same frames on a new cache: one entry, two handles, count 2. */
  method ShareEntry(digest: string -> Digest, frames: seq<Frame>)
    returns (cache: VolumeCache, first: CachedVolume, h1: CachedVolumeReference, h2: CachedVolumeReference)
    ensures fresh(cache) && fresh(first) && cache.Valid() && cache.EntriesValid() && cache.isOpen
    ensures cache.digest == digest && cache.table == map[Key(frames, digest) := first] && cache.pending == []
    ensures first.Valid() && !first.isDisposed && first.cacheOwner == cache
    ensures first.cacheKey == Key(frames, digest) && first.sourceFrames == frames
    ensures h1 != h2 && h1.Valid() && h2.Valid() && !h1.locking && !h2.locking
    ensures h1.entry == first && h2.entry == first && h1.cachedVolume == first && h2.cachedVolume == first
    ensures first.referenceCount == 2 && first.holders == {h1, h2}
  {
    cache := new VolumeCache(digest);
    var r1 := cache.CreateVolumeCore(frames, true);
    h1 := r1.value;
    first := h1.cachedVolume;
    var r2 := cache.CreateVolumeCore(frames, true);
    h2 := r2.value;
  }

  /**
   * A request that arrives after the last release but before the teardown
   * runs gets a new entry; the old entry's teardown then leaves the new one in
   * its slot.
   */
  method RecreatedEntrySurvivesOldTeardown(digest: string -> Digest, frames: seq<Frame>)
    returns (cache: VolumeCache, old_entry: CachedVolume, new_entry: CachedVolume)
    ensures old_entry != new_entry && old_entry.isDisposed && !new_entry.isDisposed
    ensures old_entry.released == multiset(frames)
    ensures Key(frames, digest) in cache.table && cache.table[Key(frames, digest)] == new_entry
  {
    cache := new VolumeCache(digest);
    var key := Key(frames, digest);
    var r1 := cache.CreateVolumeCore(frames, true);
    var h1 := r1.value;
    old_entry := h1.cachedVolume;
    h1.Dispose();
    assert cache.pending == [old_entry] && old_entry.isDisposed;

    var r2 := cache.CreateVolumeCore(frames, true);
    var h2 := r2.value;
    new_entry := h2.cachedVolume;
    assert new_entry != old_entry;

    cache.RunTeardown(0, old_entry);
    assert cache.table[key] == new_entry;
  }

  /**
   * Unloading through one handle and loading again through it publishes the
   * newly built volume and leaves the reference count and the lock count as
   * they were.
   */
  method ReloadKeepsReferenceCount(h: CachedVolumeReference, first: VolumeBuild, again: VolumeBuild)
    returns (v: Result<Volume, Error>)
    requires h.Valid() && h.cachedVolume != null
    requires first.volume.Some? && again.volume.Some?
    modifies h.entry
    ensures h.Valid()
    ensures v == Success(again.volume.value) && h.entry.volumeReference == again.volume
    ensures h.entry.referenceCount == old(h.entry.referenceCount)
    ensures h.entry.lockCount == old(h.entry.lockCount)
    ensures h.entry.holders == old(h.entry.holders)
  {
    var e := h.cachedVolume;
    assert !e.isDisposed;
    var loaded := e.Load(first);
    assert e.volumeReference.Some?;
    var u := e.Unload();
    assert e.volumeReference.None?;
    v := h.Volume(again);
  }

  /**
   * The memory manager's `Unload` goes through even while a locking handle
   * holds the entry: the lock count stays, the volume goes.
   */
  method UnloadIgnoresLock(h: CachedVolumeReference, build: VolumeBuild)
    requires h.Valid() && h.cachedVolume != null && h.locking
    requires build.volume.Some?
    modifies h.entry
    ensures h.Valid() && h.entry.IsLocked() && h.entry.volumeReference.None? && !h.entry.registered
  {
    var e := h.cachedVolume;
    var loaded := e.Load(build);
    assert e.IsLocked();
    var u := e.Unload();
  }

  /**
   * After the cache is disposed, the last release still queues a teardown.
   * As written that teardown fails on the cleared table before releasing
   * anything, so the entry keeps every frame reference.
   */
  method AsWrittenTeardownAfterCacheDisposed(digest: string -> Digest, frames: seq<Frame>)
    returns (outcome: Outcome<Error>, held: Option<seq<Frame>>)
    ensures outcome == Fail(NullReference) && held == Some(frames)
  {
    var cache := new VolumeCache(digest);
    var r := cache.CreateVolumeCore(frames, true);
    var h := r.value;
    var e := h.cachedVolume;
    cache.Dispose();
    h.Dispose();
    assert cache.pending == [e];
    outcome := cache.RunTeardownAsWritten(0, e);
    held := e.frames;
  }

  /** The corrected teardown releases every frame reference even after the cache is disposed. */
  method TeardownAfterCacheDisposed(digest: string -> Digest, frames: seq<Frame>)
    returns (held: Option<seq<Frame>>, ghost released: multiset<Frame>)
    ensures held == None && released == multiset(frames)
  {
    var cache := new VolumeCache(digest);
    var r := cache.CreateVolumeCore(frames, true);
    var h := r.value;
    var e := h.cachedVolume;
    cache.Dispose();
    h.Dispose();
    assert cache.pending == [e];
    cache.RunTeardown(0, e);
    held, released := e.frames, e.released;
  }
}

/**
 * The memory-managed MPR volume cache (`VolumeCache`, `CachedVolume` and the
 * two reference handle classes).
 *
 * The cache maps a key computed from an ordered frame list to a cache entry.
 * An entry holds transient references to its source frames, a lazily built
 * volume that the memory manager may unload, and a reference count owned by
 * the handles given to callers. The last handle's `Dispose` marks the entry
 * disposed and queues a teardown work item; the teardown removes the entry
 * from the table (only if the slot still holds that very entry) and releases
 * the volume and the frame references.
 *
 * The model is sequential. The thread pool becomes the cache's `pending`
 * queue, run one item at a time by `RunTeardown`; the asynchronous delegate
 * becomes the `backgroundLoad` record, finished by `CompleteBackgroundLoad`.
 * Registration with the memory manager is the ghost flag `registered`, and the
 * frame references released so far are the ghost multiset `released`.
 */
module VolumeCaches {
  import opened Wrappers
  import opened CacheKeys

  /** The reconstructed volume; the cache only reads its size. */
  datatype Volume = Volume(sizeInVoxels: nat)

  type Total = n: nat | n > 0 witness 1

  /** One call `(n, total)` of the progress callback `Volume.Create` makes. */
  datatype ProgressReport = ProgressReport(done: nat, total: Total)

  /** What one call of `Volume.Create` does: the progress it reports, then a volume or an exception. */
  datatype VolumeBuild = VolumeBuild(reports: seq<ProgressReport>, volume: Option<Volume>)

  datatype Error =
    | ObjectDisposed   // AssertNotDisposed threw ObjectDisposedException
    | NullReference    // a member was reached through a null field
    | InvalidFrames    // Volume.Validate rejected the frames
    | CreateFailed     // Volume.Create threw

  /** The `IAsyncResult` of one background load. */
  datatype AsyncResult = AsyncResult(id: nat)

  datatype RegenerationCost = Low | Medium | High

  /** The progress percentage one callback sets: `min(100, 100 * n / total)`, truncated to an integer. */
  function ProgressPercent(r: ProgressReport): (p: int)
    ensures 0 <= p <= 100
    ensures p == 100 <==> r.done >= r.total
  {
    if r.done >= r.total then 100
    else
      assert 100 * r.done < 100 * r.total;
      100 * r.done / r.total
  }

  /** More work done never shows less progress. */
  lemma ProgressMonotonic(r: ProgressReport, s: ProgressReport)
    requires r.total == s.total && r.done <= s.done
    ensures ProgressPercent(r) <= ProgressPercent(s)
  {
    if s.done < s.total {
      QuotientMonotonic(100 * r.done, 100 * s.done, r.total);
    }
  }

  lemma QuotientMonotonic(a: nat, b: nat, d: Total)
    requires a <= b
    ensures a / d <= b / d
  {
    var qa, qb := a / d, b / d;
    assert d * qa <= a && b < d * qb + d;
    assert d * qa < d * (qb + 1);
  }

  /** The progress left behind by a sequence of callbacks (0 when there were none). */
  function LastProgress(reports: seq<ProgressReport>): (p: int)
    ensures 0 <= p <= 100
    ensures reports != [] ==> p == ProgressPercent(reports[|reports| - 1])
  {
    if reports == [] then 0 else ProgressPercent(reports[|reports| - 1])
  }

  /**
   * The table after `RemoveVolumeCore(key, item)`: the slot is deleted only if
   * it holds that very entry; a newer entry under the key and every other key
   * are kept.
   */
  function Removed(table: map<CacheKey, CachedVolume>, key: CacheKey, item: CachedVolume)
    : (r: map<CacheKey, CachedVolume>)
    ensures key in r <==> key in table && table[key] != item
    ensures forall k :: k in r ==> k in table && r[k] == table[k]
    ensures forall k :: k in table && k != key ==> k in r
  {
    if key in table && table[key] == item then table - {key} else table
  }

  /** One cache entry: the container of a volume and of its source frames. */
  class CachedVolume {
    const cacheOwner: VolumeCache
    const cacheKey: CacheKey
    /** The frames the entry was created from. */
    const sourceFrames: seq<Frame>
    const regenerationCost: RegenerationCost

    /** `_frames`: the transient frame references, None once the teardown has released them. */
    var frames: Option<seq<Frame>>
    /** `_volumeReference`: present exactly while the volume is loaded. */
    var volumeReference: Option<Volume>
    var isDisposed: bool
    /** Loading progress, as a percentage. */
    var progress: int
    var referenceCount: int
    var largeObjectCount: int
    var bytesHeldCount: int
    var lockCount: int
    /** `_backgroundLoadMethodAsyncResult`: the background load in flight, if any. */
    var backgroundLoad: Option<AsyncResult>
    var loadsStarted: nat

    /** Whether the memory manager holds this entry. */
    ghost var registered: bool
    /** Frame references disposed so far. */
    ghost var released: multiset<Frame>
    /** The handles that hold one count each. */
    ghost var holders: set<CachedVolumeReference>
    /** The locking handles whose lock is in place. */
    ghost var lockers: set<CachedVolumeReference>

    ghost predicate Valid()
      reads this
    {
      && 0 <= progress <= 100
      && referenceCount == |holders|
      && lockCount == |lockers| && lockers <= holders
      && (isDisposed ==> referenceCount == 0)
      && (registered <==> volumeReference.Some?)
      && (volumeReference.Some? ==>
            largeObjectCount == 1 && bytesHeldCount == 2 * volumeReference.value.sizeInVoxels)
      && (volumeReference.None? && frames.Some? ==> largeObjectCount == 0 && bytesHeldCount == 0)
      && (frames.Some? ==> frames.value == sourceFrames && released == multiset{})
      && (frames.None? ==> isDisposed && volumeReference.None? && released == multiset(sourceFrames))
    }

    /** A new entry holds one transient reference per frame and nothing else yet. */
    constructor (owner: VolumeCache, key: CacheKey, frames: seq<Frame>)
      ensures Valid()
      ensures cacheOwner == owner && cacheKey == key && sourceFrames == frames
      ensures regenerationCost == Medium
      ensures this.frames == Some(frames) && volumeReference == None && !isDisposed
      ensures referenceCount == 0 && holders == {} && lockCount == 0 && lockers == {}
      ensures progress == 0 && backgroundLoad == None && loadsStarted == 0
      ensures largeObjectCount == 0 && bytesHeldCount == 0
      ensures !registered && released == multiset{}
    {
      cacheOwner := owner;
      cacheKey := key;
      sourceFrames := frames;
      regenerationCost := Medium;
      this.frames := Some(frames);
      volumeReference := None;
      isDisposed := false;
      progress := 0;
      referenceCount := 0;
      largeObjectCount := 0;
      bytesHeldCount := 0;
      lockCount := 0;
      backgroundLoad := None;
      loadsStarted := 0;
      registered := false;
      released := multiset{};
      holders := {};
      lockers := {};
    }

    method IncrementReferenceCount(ghost h: CachedVolumeReference)
      requires Valid() && !isDisposed && h !in holders
      modifies this`referenceCount, this`holders
      ensures Valid()
      ensures referenceCount == old(referenceCount) + 1 && holders == old(holders) + {h}
    {
      referenceCount := referenceCount + 1;
      holders := holders + {h};
    }

    /**
     * Drops the count of handle `h`; on reaching 0 the entry is marked disposed
     * at once and its teardown is queued.
     */
    method DecrementReferenceCount(ghost h: CachedVolumeReference)
      requires Valid() && h in holders && h !in lockers
      modifies this`referenceCount, this`holders, this`isDisposed, cacheOwner`pending
      ensures Valid()
      ensures referenceCount == old(referenceCount) - 1 && holders == old(holders) - {h}
      ensures isDisposed <==> referenceCount == 0
      ensures cacheOwner.pending
              == old(cacheOwner.pending) + (if referenceCount == 0 then [this] else [])
    {
      referenceCount := referenceCount - 1;
      holders := holders - {h};
      if referenceCount == 0 {
        isDisposed := true;
        cacheOwner.pending := cacheOwner.pending + [this];
      }
    }

    method Lock(ghost h: CachedVolumeReference)
      requires Valid() && h in holders && h !in lockers
      modifies this`lockCount, this`lockers
      ensures Valid()
      ensures lockCount == old(lockCount) + 1 && lockers == old(lockers) + {h}
    {
      lockCount := lockCount + 1;
      lockers := lockers + {h};
    }

    method Unlock(ghost h: CachedVolumeReference)
      requires Valid() && h in lockers
      modifies this`lockCount, this`lockers
      ensures Valid()
      ensures lockCount == old(lockCount) - 1 && lockers == old(lockers) - {h}
    {
      lockCount := lockCount - 1;
      lockers := lockers - {h};
    }

    /** `IsLocked` of the memory-manager contract. */
    function IsLocked(): (locked: bool)
      reads this
      requires Valid()
      ensures locked <==> lockers != {}
    {
      lockCount > 0
    }

    /**
     * Returns the loaded volume, or builds it: progress starts at 0, follows
     * each callback, and ends at 100 once the volume is published and
     * registered with the memory manager.
     */
    method LoadCore(build: VolumeBuild) returns (r: Result<Volume, Error>)
      requires Valid()
      modifies this`volumeReference, this`progress, this`largeObjectCount, this`bytesHeldCount,
               this`registered
      ensures Valid()
      ensures old(volumeReference).Some? ==>
                r == Success(old(volumeReference).value) && unchanged(this)
      ensures old(volumeReference).None? && frames.None? ==>
                r == Failure(CreateFailed) && volumeReference.None? && progress == 0
                && unchanged(this`largeObjectCount, this`bytesHeldCount, this`registered)
      ensures old(volumeReference).None? && frames.Some? && build.volume.None? ==>
                r == Failure(CreateFailed) && volumeReference.None?
                && progress == LastProgress(build.reports)
                && unchanged(this`largeObjectCount, this`bytesHeldCount, this`registered)
      ensures old(volumeReference).None? && frames.Some? && build.volume.Some? ==>
                r == Success(build.volume.value) && volumeReference == build.volume
                && registered && largeObjectCount == 1
                && bytesHeldCount == 2 * build.volume.value.sizeInVoxels
                && progress == 100
    {
      if volumeReference.Some? {
        return Success(volumeReference.value);
      }
      progress := 0;
      if frames.None? {
        // Volume.Create is handed the null frame list of a torn-down entry
        return Failure(CreateFailed);
      }
      var i := 0;
      while i < |build.reports|
        invariant 0 <= i <= |build.reports|
        invariant progress == LastProgress(build.reports[..i])
        invariant Valid()
        invariant unchanged(this`volumeReference, this`largeObjectCount, this`bytesHeldCount,
                            this`registered)
      {
        progress := ProgressPercent(build.reports[i]);
        i := i + 1;
      }
      assert build.reports[..i] == build.reports;
      if build.volume.None? {
        return Failure(CreateFailed);
      }
      var v := build.volume.value;
      volumeReference := Some(v);
      largeObjectCount := 1;
      bytesHeldCount := 2 * v.sizeInVoxels;
      registered := true;
      progress := 100;
      r := Success(v);
    }

    /** The `Volume` property: loads the volume if necessary. */
    method GetVolume(build: VolumeBuild) returns (r: Result<Volume, Error>)
      requires Valid()
      modifies this`volumeReference, this`progress, this`largeObjectCount, this`bytesHeldCount,
               this`registered
      ensures Valid()
      ensures old(isDisposed) ==> r == Failure(ObjectDisposed) && unchanged(this)
      ensures !old(isDisposed) && old(volumeReference).Some? ==>
                r == Success(old(volumeReference).value) && unchanged(this)
      ensures !old(isDisposed) && old(volumeReference).None? && build.volume.None? ==>
                r == Failure(CreateFailed) && volumeReference.None?
                && progress == LastProgress(build.reports)
                && unchanged(this`largeObjectCount, this`bytesHeldCount, this`registered)
      ensures !old(isDisposed) && old(volumeReference).None? && build.volume.Some? ==>
                r == Success(build.volume.value) && volumeReference == build.volume
                && registered && largeObjectCount == 1
                && bytesHeldCount == 2 * build.volume.value.sizeInVoxels
                && progress == 100
    {
      if isDisposed {
        return Failure(ObjectDisposed);
      }
      r := LoadCore(build);
    }

    method IsLoaded() returns (r: Result<bool, Error>)
      requires Valid()
      ensures isDisposed ==> r == Failure(ObjectDisposed)
      ensures !isDisposed ==> r.Success? && (r.value <==> registered)
    {
      if isDisposed {
        return Failure(ObjectDisposed);
      }
      r := Success(volumeReference.Some?);
    }

    method Load(build: VolumeBuild) returns (r: Outcome<Error>)
      requires Valid()
      modifies this`volumeReference, this`progress, this`largeObjectCount, this`bytesHeldCount,
               this`registered
      ensures Valid()
      ensures old(isDisposed) ==> r == Fail(ObjectDisposed) && unchanged(this)
      ensures !old(isDisposed) && old(volumeReference).Some? ==> r == Pass && unchanged(this)
      ensures !old(isDisposed) && old(volumeReference).None? ==>
                (r == Pass <==> build.volume.Some?) && volumeReference == build.volume
                && (r == Pass ==> registered && progress == 100)
                && (r != Pass ==> r == Fail(CreateFailed))
      ensures !old(isDisposed) && old(volumeReference).None? && build.volume.None? ==>
                r == Fail(CreateFailed) && volumeReference.None?
                && progress == LastProgress(build.reports)
                && unchanged(this`largeObjectCount, this`bytesHeldCount, this`registered)
      ensures !old(isDisposed) && old(volumeReference).None? && build.volume.Some? ==>
                r == Pass && volumeReference == build.volume
                && registered && largeObjectCount == 1
                && bytesHeldCount == 2 * build.volume.value.sizeInVoxels
                && progress == 100
    {
      if isDisposed {
        return Fail(ObjectDisposed);
      }
      var v := LoadCore(build);
      r := if v.Success? then Pass else Fail(CreateFailed);
    }

    /**
     * Drops the volume and leaves the memory manager. It does not consult the
     * lock, and it keeps the reference count and the frame references.
     */
    method Unload() returns (r: Outcome<Error>)
      requires Valid()
      modifies this`volumeReference, this`progress, this`largeObjectCount, this`bytesHeldCount,
               this`registered
      ensures Valid()
      ensures old(isDisposed) ==> r == Fail(ObjectDisposed) && unchanged(this)
      ensures !old(isDisposed) && old(volumeReference).None? ==> r == Pass && unchanged(this)
      ensures !old(isDisposed) && old(volumeReference).Some? ==>
                r == Pass && volumeReference.None? && !registered && progress == 0
                && largeObjectCount == 0 && bytesHeldCount == 0
    {
      if isDisposed {
        return Fail(ObjectDisposed);
      }
      if volumeReference.None? {
        return Pass;
      }
      progress := 0;
      registered := false;
      largeObjectCount := 0;
      bytesHeldCount := 0;
      volumeReference := None;
      r := Pass;
    }

    /**
     * Starts one background load unless the volume is loaded (no result) or a
     * load is already in flight (its result is returned).
     */
    method LoadAsync() returns (r: Result<Option<AsyncResult>, Error>)
      requires Valid()
      modifies this`backgroundLoad, this`loadsStarted
      ensures Valid()
      ensures old(isDisposed) ==> r == Failure(ObjectDisposed) && unchanged(this)
      ensures !old(isDisposed) && volumeReference.Some? ==> r == Success(None) && unchanged(this)
      ensures !old(isDisposed) && volumeReference.None? && old(backgroundLoad).Some? ==>
                r == Success(old(backgroundLoad)) && unchanged(this)
      ensures !old(isDisposed) && volumeReference.None? && old(backgroundLoad).None? ==>
                r == Success(backgroundLoad) && backgroundLoad == Some(AsyncResult(old(loadsStarted)))
                && loadsStarted == old(loadsStarted) + 1
    {
      if isDisposed {
        return Failure(ObjectDisposed);
      }
      if volumeReference.Some? {
        return Success(None);
      }
      if backgroundLoad.Some? {
        return Success(backgroundLoad);
      }
      backgroundLoad := Some(AsyncResult(loadsStarted));
      loadsStarted := loadsStarted + 1;
      r := Success(backgroundLoad);
    }

    /**
     * The background load running to its end, with `LoadCore`'s outcome. On
     * success the completion callback clears the in-flight record; when
     * `LoadCore` threw, `EndInvoke` rethrows before that, so the record stays.
     * That exception is unhandled on a thread-pool thread, which by default
     * ends the process; `Fail` stands for it.
     */
    method CompleteBackgroundLoad(build: VolumeBuild) returns (r: Outcome<Error>)
      requires Valid() && backgroundLoad.Some?
      modifies this`volumeReference, this`progress, this`largeObjectCount, this`bytesHeldCount,
               this`registered, this`backgroundLoad
      ensures Valid()
      ensures r == Pass <==> backgroundLoad.None?
      ensures r == Pass <==> old(volumeReference).Some? || (frames.Some? && build.volume.Some?)
      ensures r == Pass ==> volumeReference.Some? && registered
      ensures r != Pass ==> backgroundLoad == old(backgroundLoad)
      ensures old(volumeReference).Some? ==>
                r == Pass && volumeReference == old(volumeReference)
                && unchanged(this`progress, this`largeObjectCount, this`bytesHeldCount, this`registered)
      ensures old(volumeReference).None? && frames.None? ==>
                r == Fail(CreateFailed) && volumeReference.None? && progress == 0
                && unchanged(this`largeObjectCount, this`bytesHeldCount, this`registered)
      ensures old(volumeReference).None? && frames.Some? && build.volume.None? ==>
                r == Fail(CreateFailed) && volumeReference.None?
                && progress == LastProgress(build.reports)
                && unchanged(this`largeObjectCount, this`bytesHeldCount, this`registered)
      ensures old(volumeReference).None? && frames.Some? && build.volume.Some? ==>
                r == Pass && volumeReference == build.volume
                && registered && largeObjectCount == 1
                && bytesHeldCount == 2 * build.volume.value.sizeInVoxels
                && progress == 100
    {
      var v := LoadCore(build);
      if v.Failure? {
        return Fail(v.error);
      }
      backgroundLoad := None;
      r := Pass;
    }

    /** A new plain handle on a live entry. */
    method CreateReference() returns (r: Result<CachedVolumeReference, Error>)
      requires Valid()
      modifies this`referenceCount, this`holders, this`lockCount, this`lockers
      ensures Valid()
      ensures old(isDisposed) ==> r == Failure(ObjectDisposed) && unchanged(this)
      ensures !old(isDisposed) ==>
                && r.Success? && fresh(r.value) && r.value.Valid()
                && r.value.entry == this && !r.value.locking && r.value.cachedVolume == this
                && referenceCount == old(referenceCount) + 1
                && holders == old(holders) + {r.value}
                && unchanged(this`lockCount, this`lockers)
    {
      if isDisposed {
        return Failure(ObjectDisposed);
      }
      var h := new CachedVolumeReference(this, false);
      r := Success(h);
    }

    /**
     * The private `Dispose` run by the queued work item: leaves the memory
     * manager, drops the volume and disposes each frame reference once.
     */
    method Teardown()
      requires Valid() && isDisposed
      modifies this`registered, this`volumeReference, this`frames, this`released
      ensures Valid()
      ensures !registered && volumeReference.None? && frames.None?
      ensures released == multiset(sourceFrames)
    {
      registered := false;
      volumeReference := None;
      if frames.Some? {
        var fs := frames.value;
        ghost var disposed: multiset<Frame> := multiset{};
        var i := 0;
        while i < |fs|
          invariant 0 <= i <= |fs|
          invariant disposed == multiset(fs[..i])
        {
          disposed := disposed + multiset{fs[i]};
          i := i + 1;
          assert fs[..i] == fs[..i - 1] + [fs[i - 1]];
        }
        assert fs[..i] == fs;
        released := disposed;
        frames := None;
      }
    }
  }

  /**
   * A counted handle on an entry. `locking` distinguishes
   * `LockingCachedVolumeReference`, which also locks the entry for its lifetime.
   */
  class CachedVolumeReference {
    /** The entry this handle was made for. */
    ghost const entry: CachedVolume
    const locking: bool
    /** `_cachedVolume`: the entry, or null once disposed. */
    var cachedVolume: CachedVolume?

    ghost predicate Valid()
      reads this, entry
    {
      && entry.Valid()
      && (cachedVolume == null || cachedVolume == entry)
      && (cachedVolume != null ==> this in entry.holders && (this in entry.lockers <==> locking))
      && (cachedVolume == null ==> this !in entry.holders && this !in entry.lockers)
    }

    /** Takes one count on `e`, and for a locking handle one lock after it. */
    constructor (e: CachedVolume, locking: bool)
      requires e.Valid() && !e.isDisposed
      modifies e`referenceCount, e`holders, e`lockCount, e`lockers
      ensures Valid() && entry == e && cachedVolume == e && this.locking == locking
      ensures e.referenceCount == old(e.referenceCount) + 1
      ensures e.holders == old(e.holders) + {this}
      ensures e.lockCount == old(e.lockCount) + (if locking then 1 else 0)
      ensures e.lockers == if locking then old(e.lockers) + {this} else old(e.lockers)
    {
      entry := e;
      this.locking := locking;
      cachedVolume := e;
      new;
      e.IncrementReferenceCount(this);
      if locking {
        e.Lock(this);
      }
    }

    /**
     * Gives the count back exactly once; a second call on a plain handle does
     * nothing. A locking handle unlocks first; disposing it twice would
     * dereference the cleared field, so its single disposal is required.
     */
    method Dispose()
      requires Valid()
      requires locking ==> cachedVolume != null
      modifies this`cachedVolume, entry`referenceCount, entry`holders, entry`isDisposed,
               entry`lockCount, entry`lockers, entry.cacheOwner`pending
      ensures Valid() && cachedVolume == null
      ensures unchanged(entry.cacheOwner`isOpen, entry.cacheOwner`table)
      ensures old(cachedVolume) == null ==> unchanged(entry, entry.cacheOwner)
      ensures old(cachedVolume) != null ==>
                && entry.referenceCount == old(entry.referenceCount) - 1
                && entry.holders == old(entry.holders) - {this}
                && entry.lockCount == old(entry.lockCount) - (if locking then 1 else 0)
                && entry.lockers == old(entry.lockers) - {this}
                && (entry.isDisposed <==> entry.referenceCount == 0)
                && entry.cacheOwner.pending
                   == old(entry.cacheOwner.pending) + (if entry.isDisposed then [entry] else [])
    {
      if locking {
        cachedVolume.Unlock(this);
      }
      if cachedVolume != null {
        cachedVolume.DecrementReferenceCount(this);
        cachedVolume := null;
      }
    }

    /** A new handle on the same entry; a live handle keeps its entry from being disposed. */
    method CreateReference(lockVolume: bool) returns (r: Result<CachedVolumeReference, Error>)
      requires Valid()
      modifies entry`referenceCount, entry`holders, entry`lockCount, entry`lockers
      ensures cachedVolume == null ==> r == Failure(NullReference) && unchanged(entry)
      ensures cachedVolume != null ==>
                && r.Success? && fresh(r.value) && r.value.Valid() && Valid()
                && r.value.entry == entry && r.value.locking == lockVolume
                && entry.referenceCount == old(entry.referenceCount) + 1
                && entry.holders == old(entry.holders) + {r.value}
                && entry.lockCount == old(entry.lockCount) + (if lockVolume then 1 else 0)
    {
      if cachedVolume == null {
        return Failure(NullReference);
      }
      var h := new CachedVolumeReference(cachedVolume, lockVolume);
      r := Success(h);
    }

    method Volume(build: VolumeBuild) returns (r: Result<Volume, Error>)
      requires Valid()
      modifies entry`volumeReference, entry`progress, entry`largeObjectCount, entry`bytesHeldCount,
               entry`registered
      ensures Valid()
      ensures cachedVolume == null ==> r == Failure(NullReference) && unchanged(entry)
      ensures cachedVolume != null && old(entry.volumeReference).Some? ==>
                r == Success(old(entry.volumeReference).value) && unchanged(entry)
      ensures cachedVolume != null && old(entry.volumeReference).None? && build.volume.None? ==>
                r == Failure(CreateFailed) && entry.volumeReference.None?
                && entry.progress == LastProgress(build.reports)
                && unchanged(entry`largeObjectCount, entry`bytesHeldCount, entry`registered)
      ensures cachedVolume != null && old(entry.volumeReference).None? && build.volume.Some? ==>
                r == Success(build.volume.value) && entry.volumeReference == build.volume
                && entry.registered && entry.largeObjectCount == 1
                && entry.bytesHeldCount == 2 * build.volume.value.sizeInVoxels
                && entry.progress == 100
    {
      if cachedVolume == null {
        return Failure(NullReference);
      }
      r := cachedVolume.GetVolume(build);
    }

    method Progress() returns (r: Result<int, Error>)
      requires Valid()
      ensures cachedVolume == null ==> r == Failure(NullReference)
      ensures cachedVolume != null ==> r == Success(entry.progress) && 0 <= r.value <= 100
    {
      if cachedVolume == null {
        return Failure(NullReference);
      }
      r := Success(cachedVolume.progress);
    }

    method IsLoaded() returns (r: Result<bool, Error>)
      requires Valid()
      ensures cachedVolume == null ==> r == Failure(NullReference)
      ensures cachedVolume != null ==> r.Success? && (r.value <==> entry.registered)
    {
      if cachedVolume == null {
        return Failure(NullReference);
      }
      r := cachedVolume.IsLoaded();
    }

    method Load(build: VolumeBuild) returns (r: Outcome<Error>)
      requires Valid()
      modifies entry`volumeReference, entry`progress, entry`largeObjectCount, entry`bytesHeldCount,
               entry`registered
      ensures Valid()
      ensures cachedVolume == null ==> r == Fail(NullReference) && unchanged(entry)
      ensures cachedVolume != null && r == Pass ==> entry.volumeReference.Some?
      ensures cachedVolume != null && old(entry.volumeReference).Some? ==> r == Pass && unchanged(entry)
      ensures cachedVolume != null && old(entry.volumeReference).None? && build.volume.None? ==>
                r == Fail(CreateFailed) && entry.volumeReference.None?
                && entry.progress == LastProgress(build.reports)
                && unchanged(entry`largeObjectCount, entry`bytesHeldCount, entry`registered)
      ensures cachedVolume != null && old(entry.volumeReference).None? && build.volume.Some? ==>
                r == Pass && entry.volumeReference == build.volume
                && entry.registered && entry.largeObjectCount == 1
                && entry.bytesHeldCount == 2 * build.volume.value.sizeInVoxels
                && entry.progress == 100
    {
      if cachedVolume == null {
        return Fail(NullReference);
      }
      r := cachedVolume.Load(build);
    }

    method LoadAsync() returns (r: Result<Option<AsyncResult>, Error>)
      requires Valid()
      modifies entry`backgroundLoad, entry`loadsStarted
      ensures Valid()
      ensures cachedVolume == null ==> r == Failure(NullReference) && unchanged(entry)
      ensures cachedVolume != null ==>
                r.Success? && (r.value.None? <==> entry.volumeReference.Some?)
                && (r.value.Some? ==> entry.backgroundLoad == r.value)
      ensures cachedVolume != null && entry.volumeReference.Some? ==> r == Success(None) && unchanged(entry)
      ensures cachedVolume != null && entry.volumeReference.None? && old(entry.backgroundLoad).Some? ==>
                r == Success(old(entry.backgroundLoad)) && unchanged(entry)
      ensures cachedVolume != null && entry.volumeReference.None? && old(entry.backgroundLoad).None? ==>
                r == Success(entry.backgroundLoad) && entry.backgroundLoad == Some(AsyncResult(old(entry.loadsStarted)))
                && entry.loadsStarted == old(entry.loadsStarted) + 1
    {
      if cachedVolume == null {
        return Failure(NullReference);
      }
      r := cachedVolume.LoadAsync();
    }
  }

  /** The cache table and the teardown work items it has been handed. */
  class VolumeCache {
    /**
     * The digest of the key text. The contracts hold for any digest: MD5 of
     * the whole text gives the key as intended, MD5 of `FlushedText` of it the
     * key as written.
     */
    const digest: string -> Digest
    /** False once `Dispose` has set the table to null. */
    var isOpen: bool
    var table: map<CacheKey, CachedVolume>
    /** Teardown work items queued on the thread pool and not yet run. */
    var pending: seq<CachedVolume>
    /** Frame references taken by an entry whose construction then threw; nothing releases them. */
    ghost var leaked: multiset<Frame>

    ghost predicate Valid()
      reads this
    {
      && (!isOpen ==> table == map[])
      && (forall k :: k in table ==> table[k].cacheKey == k && table[k].cacheOwner == this)
      && (forall i :: 0 <= i < |pending| ==> pending[i].cacheOwner == this)
    }

    ghost predicate EntriesValid()
      reads this, table.Values
    {
      forall e :: e in table.Values ==> e.Valid()
    }

    /** An entry that a lookup under `k` may hand out. */
    ghost predicate Live(k: CacheKey)
      reads this, table.Values
    {
      k in table && !table[k].isDisposed
    }

    /** The entry a lookup under `k` reuses, if any. */
    ghost function LiveSlot(k: CacheKey): set<CachedVolume>
      reads this, table.Values
    {
      if Live(k) then {table[k]} else {}
    }

    constructor (digest: string -> Digest)
      ensures Valid() && EntriesValid()
      ensures this.digest == digest && isOpen && table == map[] && pending == [] && leaked == multiset{}
    {
      this.digest := digest;
      leaked := multiset{};
      isOpen := true;
      table := map[];
      pending := [];
    }

    /** Drops the table without disposing the entries: handles may still be held elsewhere. */
    method Dispose()
      requires Valid()
      modifies this`isOpen, this`table
      ensures Valid() && EntriesValid() && !isOpen && table == map[]
    {
      isOpen := false;
      table := map[];
    }

    /**
     * Get-or-create: a missing or disposed slot gets a new entry (if the frames
     * validate); either way the caller receives a new handle on the entry now
     * in the slot, whose count has risen by one.
     */
    method CreateVolumeCore(frames: seq<Frame>, validates: bool)
      returns (r: Result<CachedVolumeReference, Error>)
      requires Valid() && EntriesValid()
      modifies this`table, this`leaked,
               LiveSlot(Key(frames, digest))`referenceCount, LiveSlot(Key(frames, digest))`holders,
               LiveSlot(Key(frames, digest))`lockCount, LiveSlot(Key(frames, digest))`lockers
      ensures Valid() && EntriesValid()
      ensures !(old(isOpen) && !old(Live(Key(frames, digest))) && !validates) ==> leaked == old(leaked)
      ensures !old(isOpen) ==> r == Failure(NullReference) && table == old(table)
      ensures old(isOpen) && old(Live(Key(frames, digest))) ==>
                var k := Key(frames, digest);
                && table == old(table) && r.Success? && r.value.entry == table[k]
                && table[k].referenceCount == old(table[k].referenceCount) + 1
                && table[k].holders == old(table[k].holders) + {r.value}
                && table[k].lockers == old(table[k].lockers)
      ensures old(isOpen) && !old(Live(Key(frames, digest))) && !validates ==>
                r == Failure(InvalidFrames) && table == old(table)
                && leaked == old(leaked) + multiset(frames)
      ensures old(isOpen) && !old(Live(Key(frames, digest))) && validates ==>
                var k := Key(frames, digest);
                && k in table && fresh(table[k]) && table == old(table)[k := table[k]]
                && r.Success? && r.value.entry == table[k]
                && table[k].sourceFrames == frames && table[k].frames == Some(frames)
                && table[k].holders == {r.value} && table[k].referenceCount == 1
                && table[k].lockers == {}
                && table[k].volumeReference.None?
      ensures r.Success? ==>
                && fresh(r.value) && r.value.Valid() && !r.value.locking
                && r.value.cachedVolume == r.value.entry
                && !r.value.entry.isDisposed
                && Key(frames, digest) in table && table[Key(frames, digest)] == r.value.entry
    {
      var key := Key(frames, digest);
      if !isOpen {
        return Failure(NullReference);
      }
      var item: CachedVolume;
      if key !in table || table[key].isDisposed {
        if !validates {
          // the constructor took one transient reference per frame before Validate threw
          leaked := leaked + multiset(frames);
          return Failure(InvalidFrames);
        }
        item := new CachedVolume(this, key, frames);
        table := table[key := item];
      } else {
        item := table[key];
      }
      r := item.CreateReference();
    }

    /** Deletes the slot of `key` only if it still holds `item` itself. */
    method RemoveVolumeCore(key: CacheKey, item: CachedVolume) returns (r: Outcome<Error>)
      requires Valid()
      modifies this`table
      ensures Valid()
      ensures old(isOpen) ==> r == Pass && table == Removed(old(table), key, item)
      ensures !old(isOpen) ==> r == Fail(NullReference) && table == old(table)
    {
      if !isOpen {
        return Fail(NullReference);
      }
      table := Removed(table, key, item);
      r := Pass;
    }

    /**
     * Runs queued teardown `i` as written: remove from the table, then release
     * the entry. On a disposed cache the removal throws and the release never
     * happens.
     */
    method RunTeardownAsWritten(i: nat, e: CachedVolume) returns (r: Outcome<Error>)
      requires Valid() && EntriesValid()
      requires i < |pending| && pending[i] == e && e.Valid() && e.isDisposed
      modifies this`table, this`pending, e`registered, e`volumeReference,
               e`frames, e`released
      ensures Valid() && EntriesValid()
      ensures pending == old(pending[..i] + pending[i + 1..])
      ensures e.Valid()
              && (old(isOpen) ==>
                    && r == Pass && table == Removed(old(table), e.cacheKey, e)
                    && !e.registered && e.volumeReference.None? && e.frames.None?
                    && e.released == multiset(e.sourceFrames))
              && (!old(isOpen) ==> r == Fail(NullReference) && unchanged(e) && table == old(table))
    {
      pending := pending[..i] + pending[i + 1..];
      r := RemoveVolumeCore(e.cacheKey, e);
      if r.Fail? {
        return;
      }
      e.Teardown();
      assert forall k :: k in table ==> table[k] != e;
    }

    /**
     * Runs queued teardown `i`: removes the entry from the table if it is
     * still there, and releases its volume and every frame reference, also
     * after the cache itself has been disposed.
     */
    method RunTeardown(i: nat, e: CachedVolume)
      requires Valid() && EntriesValid()
      requires i < |pending| && pending[i] == e && e.Valid() && e.isDisposed
      modifies this`table, this`pending, e`registered, e`volumeReference,
               e`frames, e`released
      ensures Valid() && EntriesValid()
      ensures pending == old(pending[..i] + pending[i + 1..])
      ensures e.Valid() && !e.registered && e.volumeReference.None? && e.frames.None?
              && e.released == multiset(e.sourceFrames)
              && table == (if old(isOpen) then Removed(old(table), e.cacheKey, e) else old(table))
    {
      pending := pending[..i] + pending[i + 1..];
      if isOpen {
        var _ := RemoveVolumeCore(e.cacheKey, e);
      }
      e.Teardown();
      assert forall k :: k in table ==> table[k] != e;
    }
  }
}

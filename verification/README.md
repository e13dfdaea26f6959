# ClearCanvas: MPR volume cache, key image selection and duplicate SOP handling

This project is a Dafny model of three parts of ClearCanvas, with proofs about them.

- **The MPR volume cache** (`VolumeCache`, viewer side):
  - Volumes built from a list of frames are shared through a table keyed by a digest of the text that identifies the frames. The code uses MD5; the model takes the digest as a parameter, and its contracts hold for any digest.
  - Each table entry (`CachedVolume`) counts the handles (`CachedVolumeReference`) that hold it. It also counts the locking handles, which keep the memory manager from unloading it.
  - The entry builds its volume on demand and reports progress. The memory manager can unload the volume again.
  - When the last handle is released, the entry is marked disposed. Its removal from the table and the release of its frames are queued as a separate work item. The removal only takes place if the slot still holds that very entry.
- **Key image selection** (`KeyImageInformation`, viewer side):
  - It holds the editable fields of a key object selection document and the list of clipboard items.
  - Every edit sets the `HasChanges` flag.
  - `CreateSopInstances` plans the documents to write. For each study it makes one key object series and one presentation state series. A placeholder keeps its own references. An unchanged DICOM image keeps its current presentation state. Any other image gets a new presentation state when one can be created for it, and none otherwise. New presentation states get consecutive instance numbers within their study. Without a caller's delegate, series numbers are handed out one past the highest in the study.
- **Duplicate SOP instance handling** (`DuplicateSopProcessorHelper`, server side):
  - An ordered decision table chooses what happens to a duplicate: an accepted latest report, then a policy override, then the partition's duplicate policy.
  - The duplicate is stored for reconciliation, acknowledged, or rejected.
  - Storing queues directory, save and work-queue commands.
  - A failed attempt is recorded on the work queue UID row.

Modules:
- `Wrappers`: `Option`, `Result` and `Outcome`.
- `CacheKeys`: the cache key.
- `VolumeCaches`: the cache, its entries and handles, as classes.
- `VolumeCacheScenarios`: client sequences over the cache, proved from the operations' contracts.
- `KeyImages`: key image selection.
- `DuplicateSopProcessing`: duplicate SOP handling.

Points where the code behaves in a way a caller may not expect, and how the model treats them:
- **Unloading a locked entry.** `Unload` does not look at the lock count (`VolumeCache.cs:324-346`), so a locked entry can be unloaded. `VolumeCacheScenarios.UnloadIgnoresLock` shows it.
- **Teardown order.** The queued teardown removes the entry from the table first and disposes it afterwards (`VolumeCache.cs:426-430`).
- **Disposing a handle twice.** A second dispose of a plain handle does nothing. A second dispose of a locking handle dereferences null in `LockingCachedVolumeReference.Dispose` (`VolumeCache.cs:527-531`). The model makes that a precondition.
- **Failing teardown.** The queued work item has no exception handler. So in the third finding below, the frames are leaked and the exception is unhandled on a thread-pool thread, which by default ends the process.
- **Failing background load.** When the build of a background load throws, `EndInvoke` rethrows it inside the completion callback (`VolumeCache.cs:373-378`). That exception is unhandled on a thread-pool thread, which by default ends the process, and the in-flight record is never cleared. `VolumeCaches.CachedVolume.CompleteBackgroundLoad` keeps the record and returns `Fail`.

## Model

| member | source | states |
|---|---|---|
| CacheKeys.Key | ImageViewer/Volume/Mpr/VolumeCache.cs:587-608 | the empty frame list gets the digest of the empty text |
| CacheKeys.Decimal | ImageViewer/Volume/Mpr/VolumeCache.cs:602 | a frame number is written as a non-empty string of decimal digits |
| CacheKeys.DecimalInjective | ImageViewer/Volume/Mpr/VolumeCache.cs:602 | different frame numbers are written differently |
| CacheKeys.KeyLines | ImageViewer/Volume/Mpr/VolumeCache.cs:594-603 | nothing is written for no frames; otherwise four header lines plus one line per frame |
| CacheKeys.FrameLines | ImageViewer/Volume/Mpr/VolumeCache.cs:601-602 | one `uid:number` line per frame, in frame order |
| CacheKeys.WriteLinesInjective | ImageViewer/Volume/Mpr/VolumeCache.cs:596-602 | lines free of line breaks can be recovered from the written text |
| CacheKeys.FrameLineInjective | ImageViewer/Volume/Mpr/VolumeCache.cs:602 | a frame line determines the SOP instance UID and frame number when the UID has no colon |
| CacheKeys.KeyLinesHaveNoNewLine | ImageViewer/Volume/Mpr/VolumeCache.cs:596-602 | well-formed DICOM identifiers produce lines without line breaks |
| CacheKeys.SameIdentitySameKey | ImageViewer/Volume/Mpr/VolumeCache.cs:587-608 | the key depends only on the header fields of the first frame and each frame's UID and number |
| CacheKeys.KeyIdentifiesFrames | ImageViewer/Volume/Mpr/VolumeCache.cs:587-608 | with a collision-free digest, two well-formed frame lists get the same key exactly when their identities agree |
| CacheKeys.FlushedText | ImageViewer/Volume/Mpr/VolumeCache.cs:592-606 | without a flush, the stream holds a prefix of the text made of whole 1024-character buffers; the last buffer, even when full, stays in the writer |
| CacheKeys.AsWrittenShortTextsCollide | ImageViewer/Volume/Mpr/VolumeCache.cs:592-606 | as written, every key text of at most one buffer hashes like the empty list |
| CacheKeys.LastFullBufferStaysInWriter | ImageViewer/Volume/Mpr/VolumeCache.cs:592-606 | a text that exactly fills its buffers keeps the last 1024 characters out of the hashed stream |
| CacheKeys.AsWrittenKeyCollision | ImageViewer/Volume/Mpr/VolumeCache.cs:587-608 | as written, two one-frame lists with different SOP instance UIDs share a key |
| CacheKeys.IntendedKeySeparates | ImageViewer/Volume/Mpr/VolumeCache.cs:587-608 | the intended key tells those two lists apart |
| CacheKeys.WriteLinesLength | ImageViewer/Volume/Mpr/VolumeCache.cs:596-602 | the written text is as long as its lines plus a CR LF each |
| CacheKeys.TotalLengthBound | ImageViewer/Volume/Mpr/VolumeCache.cs:596-602 | lines of bounded length give text of bounded length |
| CacheKeys.KeyTextLength | ImageViewer/Volume/Mpr/VolumeCache.cs:594-603 | the key text of each sample one-frame list fits in one buffer |
| VolumeCaches.ProgressPercent | ImageViewer/Volume/Mpr/VolumeCache.cs:303-307 | progress is a percentage, and it is 100 exactly when all steps are done |
| VolumeCaches.ProgressMonotonic | ImageViewer/Volume/Mpr/VolumeCache.cs:303-307 | more completed steps never lower the percentage |
| VolumeCaches.QuotientMonotonic | ImageViewer/Volume/Mpr/VolumeCache.cs:305 | integer division by a positive total is monotonic |
| VolumeCaches.LastProgress | ImageViewer/Volume/Mpr/VolumeCache.cs:303-307 | the progress left after a build is the percentage of its last report |
| VolumeCaches.Removed | ImageViewer/Volume/Mpr/VolumeCache.cs:179-188 | the slot is deleted only if it holds that very entry; every other slot is kept as it was |
| VolumeCaches.CachedVolume.constructor | ImageViewer/Volume/Mpr/VolumeCache.cs:228-235 | a new entry holds one reference per frame, no volume and no handle |
| VolumeCaches.CachedVolume.IncrementReferenceCount | ImageViewer/Volume/Mpr/VolumeCache.cs:406-412 | the count rises by one and equals the number of handles holding the entry |
| VolumeCaches.CachedVolume.DecrementReferenceCount | ImageViewer/Volume/Mpr/VolumeCache.cs:414-433 | the count falls by one; at zero the entry is marked disposed and its teardown is queued, otherwise nothing is queued |
| VolumeCaches.CachedVolume.Lock | ImageViewer/Volume/Mpr/VolumeCache.cs:570-573 | the lock count rises by one and equals the number of locking handles |
| VolumeCaches.CachedVolume.Unlock | ImageViewer/Volume/Mpr/VolumeCache.cs:575-578 | the lock count falls by one |
| VolumeCaches.CachedVolume.IsLocked | ImageViewer/Volume/Mpr/VolumeCache.cs:565-568 | the entry is locked exactly when some locking handle holds it |
| VolumeCaches.CachedVolume.LoadCore | ImageViewer/Volume/Mpr/VolumeCache.cs:294-322 | a loaded volume is returned as is; otherwise the built volume is published, registered and accounted (one large object, two bytes per voxel) with progress 100; a failed build publishes nothing |
| VolumeCaches.CachedVolume.GetVolume | ImageViewer/Volume/Mpr/VolumeCache.cs:259-267 | a disposed entry fails and changes nothing; a loaded volume is returned as is; otherwise, as in `LoadCore`, the built volume is published, registered and accounted (one large object, two bytes per voxel) with progress 100, and a failed build publishes nothing, keeps the accounting and leaves the progress of its last report |
| VolumeCaches.CachedVolume.IsLoaded | ImageViewer/Volume/Mpr/VolumeCache.cs:269-276 | a disposed entry fails; otherwise the answer is whether a volume is held |
| VolumeCaches.CachedVolume.Load | ImageViewer/Volume/Mpr/VolumeCache.cs:278-282 | a disposed entry fails; a loaded one is unchanged; otherwise the build's outcome as in `LoadCore`: published, registered and accounted with progress 100, or nothing published, the accounting kept and the last report's progress left |
| VolumeCaches.CachedVolume.Unload | ImageViewer/Volume/Mpr/VolumeCache.cs:324-346 | a disposed entry fails; otherwise the volume is dropped and deregistered, and the accounting and progress are reset, lock or no lock |
| VolumeCaches.CachedVolume.LoadAsync | ImageViewer/Volume/Mpr/VolumeCache.cs:360-380 | a loaded volume needs no load; a load in flight is returned; otherwise exactly one new load starts |
| VolumeCaches.CachedVolume.CompleteBackgroundLoad | ImageViewer/Volume/Mpr/VolumeCache.cs:373-378 | the background load has `LoadCore`'s outcome: a loaded volume is kept; a build is published, registered and accounted with progress 100; a failed build publishes nothing, keeps the accounting and leaves the last report's progress. The in-flight record is cleared exactly when the load succeeds and is kept otherwise |
| VolumeCaches.CachedVolume.CreateReference | ImageViewer/Volume/Mpr/VolumeCache.cs:389-393 | a disposed entry fails; otherwise a new plain handle holds it |
| VolumeCaches.CachedVolume.Teardown | ImageViewer/Volume/Mpr/VolumeCache.cs:240-257 | the volume is deregistered and dropped, and every frame reference is released exactly once |
| VolumeCaches.CachedVolumeReference.constructor | ImageViewer/Volume/Mpr/VolumeCache.cs:439-444 | a new handle adds one count to its entry, and one lock if it is a locking handle |
| VolumeCaches.CachedVolumeReference.Dispose | ImageViewer/Volume/Mpr/VolumeCache.cs:446-454 | the first dispose gives back the handle's lock and count; a later dispose of a plain handle changes nothing |
| VolumeCaches.CachedVolumeReference.CreateReference | ImageViewer/Volume/Mpr/VolumeCache.cs:493-496 | a released handle fails; otherwise a new (locking, if asked) handle on the same entry is returned |
| VolumeCaches.CachedVolumeReference.Volume | ImageViewer/Volume/Mpr/VolumeCache.cs:466-469 | a released handle fails; a loaded volume is returned with the entry unchanged; otherwise the entry loads as `LoadCore` does, with the same success and failure states |
| VolumeCaches.CachedVolumeReference.Progress | ImageViewer/Volume/Mpr/VolumeCache.cs:473-476 | a released handle fails; otherwise the entry's progress is returned, a percentage |
| VolumeCaches.CachedVolumeReference.IsLoaded | ImageViewer/Volume/Mpr/VolumeCache.cs:478-481 | a released handle fails; otherwise it answers whether the entry holds a volume |
| VolumeCaches.CachedVolumeReference.Load | ImageViewer/Volume/Mpr/VolumeCache.cs:488-491 | a released handle fails; a loaded entry is unchanged; otherwise the entry loads as `LoadCore` does, with the same success and failure states |
| VolumeCaches.CachedVolumeReference.LoadAsync | ImageViewer/Volume/Mpr/VolumeCache.cs:483-486 | a released handle fails; otherwise a loaded volume needs no load and changes nothing, a load in flight is returned unchanged, and else exactly one new load starts and is returned |
| VolumeCaches.VolumeCache.constructor | ImageViewer/Volume/Mpr/VolumeCache.cs:128-131 | a new cache is open with an empty table and no queued teardown |
| VolumeCaches.VolumeCache.Dispose | ImageViewer/Volume/Mpr/VolumeCache.cs:136-140 | the table is dropped without disposing the entries |
| VolumeCaches.VolumeCache.CreateVolumeCore | ImageViewer/Volume/Mpr/VolumeCache.cs:167-177 | a live entry is shared: the table is unchanged, the count rises by one, the new handle joins the holders, and only the entry's count, holders and lock fields may change, so its volume, progress, frames and background load are kept; a missing or disposed slot gets a new entry with count 1; frames that fail validation leave the table unchanged and their references leaked; a disposed cache fails |
| VolumeCaches.VolumeCache.RemoveVolumeCore | ImageViewer/Volume/Mpr/VolumeCache.cs:179-188 | only the slot still holding that entry is removed; a disposed cache fails |
| VolumeCaches.VolumeCache.RunTeardownAsWritten | ImageViewer/Volume/Mpr/VolumeCache.cs:426-430 | the queued teardown removes, then releases; on a disposed cache it fails before releasing anything |
| VolumeCaches.VolumeCache.RunTeardown | ImageViewer/Volume/Mpr/VolumeCache.cs:426-430 | the corrected teardown always releases the volume and every frame, and removes the entry if the cache is open |
| VolumeCacheScenarios.SharedEntryIsRemovedAfterLastRelease | ImageViewer/Volume/Mpr/VolumeCache.cs:167-188 | two requests share an entry; after both releases and the teardown, a third request gets a new one |
| VolumeCacheScenarios.RecreatedEntrySurvivesOldTeardown | ImageViewer/Volume/Mpr/VolumeCache.cs:179-188 | an entry recreated before the old teardown runs stays in its slot |
| VolumeCacheScenarios.ReloadKeepsReferenceCount | ImageViewer/Volume/Mpr/VolumeCache.cs:278-346 | unload then reload through a handle publishes the new volume; counts and locks are kept |
| VolumeCacheScenarios.UnloadIgnoresLock | ImageViewer/Volume/Mpr/VolumeCache.cs:324-346 | a locked entry can still be unloaded |
| VolumeCacheScenarios.AsWrittenTeardownAfterCacheDisposed | ImageViewer/Volume/Mpr/VolumeCache.cs:136-140 | as written, a teardown after the cache is disposed fails and keeps every frame reference |
| VolumeCacheScenarios.TeardownAfterCacheDisposed | ImageViewer/Volume/Mpr/VolumeCache.cs:240-257 | the corrected teardown releases every frame after the cache is disposed |
| KeyImages.NewSeriesDescription | ImageViewer/Tools/Reporting/KeyImages/KeyImageInformation.cs:62-67 | the new document's series description begins with the default text |
| KeyImages.NewSeriesDescriptionNamesAuthor | ImageViewer/Tools/Reporting/KeyImages/KeyImageInformation.cs:62-67 | the default is extended exactly when a user name is known, and then with ` (<user>)` |
| KeyImages.SelectedFrames | ImageViewer/Tools/Reporting/KeyImages/KeyImageInformation.cs:205-247 | at most one key image frame per clipboard item |
| KeyImages.FirstFrameOf | ImageViewer/Tools/Reporting/KeyImages/KeyImageInformation.cs:222-225 | the frame a study's record is made from belongs to that study |
| KeyImages.CountStudy | ImageViewer/Tools/Reporting/KeyImages/KeyImageInformation.cs:356-359 | the number of presentation states already made for a study |
| KeyImages.ConsecutiveFromFirst | ImageViewer/Tools/Reporting/KeyImages/KeyImageInformation.cs:361-371 | the default getter's numbers count up by one from the first |
| KeyImages.ConsecutiveBelowLast | ImageViewer/Tools/Reporting/KeyImages/KeyImageInformation.cs:361-371 | no number the default getter handed out exceeds its last one |
| KeyImages.DefaultNextSeriesNumberGetter.GetNextSeriesNumber | ImageViewer/Tools/Reporting/KeyImages/KeyImageInformation.cs:365-370 | the first number is one past the study's highest series number; each later one is one past the previous |
| KeyImages.StudyInfo.constructor | ImageViewer/Tools/Reporting/KeyImages/KeyImageInformation.cs:297-309 | a study record starts at presentation instance number 1, with no series number yet, and a default getter when no delegate is given |
| KeyImages.StudyInfo.NextSeriesNumber | ImageViewer/Tools/Reporting/KeyImages/KeyImageInformation.cs:297-309 | the delegate's number, or the default getter's next one |
| KeyImages.StudyInfo.PresentationSeriesNumber | ImageViewer/Tools/Reporting/KeyImages/KeyImageInformation.cs:316-319 | asked for once, then the same number on every later call |
| KeyImages.StudyInfo.KeyObjectSeriesNumber | ImageViewer/Tools/Reporting/KeyImages/KeyImageInformation.cs:321-324 | asked for once, then the same number on every later call |
| KeyImages.StudyInfo.NumberPresentationState | ImageViewer/Tools/Reporting/KeyImages/KeyImageInformation.cs:239-242 | a created presentation state carries the study's presentation series number and the next instance number |
| KeyImages.StudyInfo.GetNextPresentationInstanceNumber | ImageViewer/Tools/Reporting/KeyImages/KeyImageInformation.cs:356-359 | returns the next instance number and advances it by one |
| KeyImages.DefaultSeriesNumbersDiffer | ImageViewer/Tools/Reporting/KeyImages/KeyImageInformation.cs:316-324 | with the default getter, a study's key object and presentation series numbers differ |
| KeyImages.CreatedNumberedAppend | ImageViewer/Tools/Reporting/KeyImages/KeyImageInformation.cs:239-242 | a new presentation state numbered after its study's earlier ones keeps the numbering consecutive |
| KeyImages.CountStudyAbsent | ImageViewer/Tools/Reporting/KeyImages/KeyImageInformation.cs:356-359 | a study with no presentation state has count zero |
| KeyImages.PlanOf | ImageViewer/Tools/Reporting/KeyImages/KeyImageInformation.cs:205-245 | no more entries than items and no more new presentation states than entries |
| KeyImages.PlanStep | ImageViewer/Tools/Reporting/KeyImages/KeyImageInformation.cs:205-245 | one item adds at most one entry, and a new presentation state only together with its entry |
| KeyImages.NewPresentationState | ImageViewer/Tools/Reporting/KeyImages/KeyImageInformation.cs:233-242 | a new presentation state is a created one, of the given study |
| KeyImages.PlanOfAppend | ImageViewer/Tools/Reporting/KeyImages/KeyImageInformation.cs:205-245 | the plan of the items and one more is the plan of the items extended by that one item |
| KeyImages.PlanOfFrames | ImageViewer/Tools/Reporting/KeyImages/KeyImageInformation.cs:205-245 | the plan has one entry per key image, for its frame, in clipboard order |
| KeyImages.PlanOfNumbered | ImageViewer/Tools/Reporting/KeyImages/KeyImageInformation.cs:233-245 | every new presentation state belongs to a study with an image, carries the series number asked for that study's first image, and is numbered one past the study's earlier states |
| KeyImages.PlanItem | ImageViewer/Tools/Reporting/KeyImages/KeyImageInformation.cs:205-247 | one loop pass extends the plan by `PlanOf` of one more item and keeps the plan invariant: one record per study, consecutive numbering |
| KeyImages.PlanItems | ImageViewer/Tools/Reporting/KeyImages/KeyImageInformation.cs:205-247 | after the loop over all clipboard items the entries and presentation states are `PlanOf` the whole list, the plan invariant holds, and every study record is new |
| KeyImages.RecordStudy | ImageViewer/Tools/Reporting/KeyImages/KeyImageInformation.cs:221-225 | an image's study gets a record on its first image and keeps it afterwards; the records stay one per study met so far, each made from that study's first image |
| KeyImages.AddStudy | ImageViewer/Tools/Reporting/KeyImages/KeyImageInformation.cs:224-225 | a study met for the first time is added with a new record; the records of earlier studies are kept |
| KeyImages.NewStudy | ImageViewer/Tools/Reporting/KeyImages/KeyImageInformation.cs:225 | the new record is made from the study's first image and the records of the other studies still hold |
| KeyImages.PlanSopImage | ImageViewer/Tools/Reporting/KeyImages/KeyImageInformation.cs:218-245 | an unchanged DICOM image adds an entry with its current presentation state; any other image adds an entry with a new presentation state of its study, also appended to the created ones, when one can be created, and an entry with none otherwise; the plan invariant is kept |
| KeyImages.PlanPresentationState | ImageViewer/Tools/Reporting/KeyImages/KeyImageInformation.cs:235-245 | the entry carries the new presentation state, numbered for its study, and the same state is appended to the created ones; the plan invariant is kept |
| KeyImages.NumberInStudy | ImageViewer/Tools/Reporting/KeyImages/KeyImageInformation.cs:239-242 | the state numbered through the study's record is the next state of that study: its series number and the instance number after the study's earlier ones; other studies' records are untouched |
| KeyImages.KeyImageInformation.New | ImageViewer/Tools/Reporting/KeyImages/KeyImageInformation.cs:55-68 | a new selection is empty and unchanged, titled "Of Interest", authored by the user, with the default series description |
| KeyImages.KeyImageInformation.FromDocument | ImageViewer/Tools/Reporting/KeyImages/KeyImageInformation.cs:70-105 | a loaded document's images become unchanged clipboard items in order, with its UID, author, description, title (default "Of Interest") and series description; loading does not flag changes |
| KeyImages.KeyImageInformation.Load | ImageViewer/Tools/Reporting/KeyImages/KeyImageInformation.cs:70-105 | a document that is not a key object selection is refused; otherwise the selection is loaded as `FromDocument` loads it: its images as unchanged items in order, its UID, author, description, title (default "Of Interest") and series description, with no change flagged |
| KeyImages.KeyImageInformation.SetDocumentTitle | ImageViewer/Tools/Reporting/KeyImages/KeyImageInformation.cs:112-121 | the field is set, and changes are flagged exactly when the value differs |
| KeyImages.KeyImageInformation.SetAuthor | ImageViewer/Tools/Reporting/KeyImages/KeyImageInformation.cs:123-132 | the field is set, and changes are flagged exactly when the value differs |
| KeyImages.KeyImageInformation.SetDescription | ImageViewer/Tools/Reporting/KeyImages/KeyImageInformation.cs:134-143 | the field is set, and changes are flagged exactly when the value differs |
| KeyImages.KeyImageInformation.SetSeriesDescription | ImageViewer/Tools/Reporting/KeyImages/KeyImageInformation.cs:145-154 | the field is set, and changes are flagged exactly when the value differs |
| KeyImages.KeyImageInformation.FlagChanges | ImageViewer/Tools/Reporting/KeyImages/KeyImageInformation.cs:176-179 | changes are flagged |
| KeyImages.KeyImageInformation.ClipboardItemsChanged | ImageViewer/Tools/Reporting/KeyImages/KeyImageInformation.cs:171-174 | a list change flags changes once the handler is subscribed |
| KeyImages.KeyImageInformation.AddItem | ImageViewer/Tools/Reporting/KeyImages/KeyImageInformation.cs:171-174 | the item is appended, and changes are flagged once subscribed |
| KeyImages.KeyImageInformation.RemoveItemAt | ImageViewer/Tools/Reporting/KeyImages/KeyImageInformation.cs:171-174 | the item is removed, the rest keep their order, and changes are flagged once subscribed |
| KeyImages.KeyImageInformation.ClearItems | ImageViewer/Tools/Reporting/KeyImages/KeyImageInformation.cs:171-174 | the list is emptied, and changes are flagged once subscribed |
| KeyImages.KeyImageInformation.Dispose | ImageViewer/Tools/Reporting/KeyImages/KeyImageInformation.cs:378-384 | every clipboard item is disposed and the list is cleared |
| KeyImages.KeyImageInformation.CreateSopInstances | ImageViewer/Tools/Reporting/KeyImages/KeyImageInformation.cs:194-277 | nothing is planned without changes or items; otherwise the entries and presentation states are `PlanOf` the clipboard items, every selected frame is planned in order, with one fresh record per study made from its first image and presentation states numbered consecutively within each study under its one series number |
| DuplicateSopProcessing.SopClassIsReport | ImageServer/Core/Process/DuplicateSopProcessorHelper.cs:193-197 | exactly the encapsulated PDF and CDA storage SOP classes are reports |
| DuplicateSopProcessing.ReportTakesPrecedence | ImageServer/Core/Process/DuplicateSopProcessorHelper.cs:111-116 | an accepted latest report overwrites, whatever the policy and its override |
| DuplicateSopProcessing.OverrideTakesPrecedence | ImageServer/Core/Process/DuplicateSopProcessorHelper.cs:118-125 | otherwise, an overridden policy overwrites the SOP, whatever the policy |
| DuplicateSopProcessing.RejectedExactly | ImageServer/Core/Process/DuplicateSopProcessorHelper.cs:127-153 | a duplicate is refused exactly when neither earlier rule applies and the policy is neither send-success nor compare |
| DuplicateSopProcessing.Join | ImageServer/Core/Process/DuplicateSopProcessorHelper.cs:234-247 | a joined path begins with the folder and a separator |
| DuplicateSopProcessing.DuplicateFoldersNest | ImageServer/Core/Process/DuplicateSopProcessorHelper.cs:230-252 | each created folder lies in the one before it, and the file `<sop>.<extension>` lies in the study folder |
| DuplicateSopProcessing.SaveDuplicate | ImageServer/Core/Process/DuplicateSopProcessorHelper.cs:230-252 | queues the four folders from partition down to study, then the save of the file in the last one |
| DuplicateSopProcessing.ProcessStoredDuplicate | ImageServer/Core/Process/DuplicateSopProcessorHelper.cs:56-74 | queues the save and one work-queue update carrying the extension, group, processing and request token |
| DuplicateSopProcessing.InitialResult | ImageServer/Core/Process/DuplicateSopProcessorHelper.cs:97-106 | processing starts successful, carrying the file's UIDs |
| DuplicateSopProcessing.SetError | ImageServer/Core/Process/DuplicateSopProcessorHelper.cs:133-139 | an error records its status and reason and makes the result unsuccessful |
| DuplicateSopProcessing.Process | ImageServer/Core/Process/DuplicateSopProcessorHelper.cs:89-154 | a stored duplicate queues its commands and succeeds; an acknowledged one succeeds with no command; a refused one fails with a duplicate-instance status and queues nothing |
| DuplicateSopProcessing.ApplyColumns | ImageServer/Core/Process/DuplicateSopProcessorHelper.cs:224 | an update sets the given columns and keeps the others |
| DuplicateSopProcessing.UidStore.Update | ImageServer/Core/Process/DuplicateSopProcessorHelper.cs:224 | only the row of the given key changes |
| DuplicateSopProcessing.FailUidAsWritten | ImageServer/Core/Process/DuplicateSopProcessorHelper.cs:203-228 | without retry or at the maximum the row is failed; otherwise the count column gets the count from before the increment |
| DuplicateSopProcessing.FailUid | ImageServer/Core/Process/DuplicateSopProcessorHelper.cs:203-228 | the same, with the count column getting the incremented count |
| DuplicateSopProcessing.AsWrittenNeverFails | ImageServer/Core/Process/DuplicateSopProcessorHelper.cs:221 | as written, a row below the maximum is unchanged by any number of retried failures |
| DuplicateSopProcessing.CorrectedCounts | ImageServer/Core/Process/DuplicateSopProcessorHelper.cs:214-222 | as intended, each retried failure below the maximum raises the persisted count by one |
| DuplicateSopProcessing.CorrectedEventuallyFails | ImageServer/Core/Process/DuplicateSopProcessorHelper.cs:214-222 | as intended, a row is failed after its remaining attempts and one more |
| DuplicateSopProcessing.RetryRoundsSplit | ImageServer/Core/Process/DuplicateSopProcessorHelper.cs:203-228 | n + m retried failures are n failures followed by m |
| DuplicateSopProcessing.RowsFailedAsWritten | ImageServer/Core/Process/DuplicateSopProcessorHelper.cs:203-228 | failing with retry touches only the UID's row: below the maximum its count column gets the given count, at the maximum it is marked failed |
| DuplicateSopProcessing.CreateDuplicateSiqEntry | ImageServer/Core/Process/DuplicateSopProcessorHelper.cs:165-191 | a refused duplicate queues only the source file's deletion, runs nothing, and fails the UID as `FailUid` is written; otherwise the source file's deletion, the stored duplicate's commands (none when acknowledged) and the UID's deletion are queued in that order and run, and the UID is left alone when they succeed and failed as written when they do not |

## Left out

- Threads and locks: the reader-writer lock, `lock` blocks and the thread pool. A queued teardown is an entry of `VolumeCache.pending` that a client runs with `RunTeardown`, in any order it likes.
- MD5 and the Guid around it: a parameter `digest` of the cache. The contracts hold for any digest. MD5 of the whole key text gives the cache as intended; MD5 of `CacheKeys.FlushedText` of it gives the cache as written (first finding below). Only `CacheKeys.KeyIdentifiesFrames` and `CacheKeys.IntendedKeySeparates` assume the digest is collision-free.
- Progress is a single-precision floating-point percentage in the code. The model keeps the whole part of it, computed by integer division. The total of a callback is a positive number (`Total`); a total of 0, which the code would divide by, is not modelled. The model agrees with the code on the 0 and 100 ends, and on monotonicity, only while `100 * total` is below 2^24, where single precision holds the products exactly. Above that, `100f*n/total` at `n == total` can round below 100. Any real slice count is far below that bound.
- Text encoding: characters are not encoded to UTF-8 bytes before hashing. The writer's buffer is counted in characters, as `StreamWriter` counts it.
- `Volume.Create` and `Volume.Validate` are not part of this model. A build is an input: its progress reports and its volume, or none. Validation is a boolean input of `CreateVolumeCore`.
- The memory manager is not part of this model. Its registration is the ghost flag `registered`. When to unload is the memory manager's choice, so `Unload` may be called at any time.
- The public `CreateVolume` overloads and the `GetInstance` singleton only forward to `CreateVolumeCore`.
- `ILargeObjectContainer` members other than the counts, lock and unload (last access time, regeneration cost) are left out: they are plain properties.
- VolumeCaches.CachedVolumeReference.Dispose: a second dispose of a locking handle is excluded by a precondition. The code would throw a null reference there.
- Reading the key object document (presentation image factory, deserializer) is left out. A document is given as its decoded fields and images.
- `GetUserName` becomes the `userName` parameter of `KeyImageInformation.New`.
- The resource strings behind the default texts and the selection's display name (`ToString`) are left out. So are the event subscription mechanics.
- KeyImages.KeyImageInformation.CreateSopInstances: the plan stops short of the DICOM files. Their UIDs, dates, serialization and the grouping by study source are not modelled. The plan holds the frame selection, the study records and the numbered presentation states.
- The series numbers of existing series come from the study tree through `maxSeriesNumberOf`, a parameter.
- KeyImages.StudyInfo.NextSeriesNumber: the caller's numbering delegate is modelled as a pure function of the frame. A delegate with state of its own (one counter shared by all studies, say) is not represented. So `KeyImages.PlanOf` and `KeyImages.NumberedFor` give a study's presentation series number as the delegate's answer for its first image.
- The command classes are not part of this model, so a command is the value of its constructor arguments. Executing the command processor is the boolean `executes` of `CreateDuplicateSiqEntry`.
- `DuplicatePolicy.IsParitionDuplicatePolicyOverridden` is not part of this model. Its answer is the field `policyOverridden` of the study location.
- `ServerPlatform.DuplicateFileExtension`, `ServerPlatform.ReconcileStorageFolder` and `ImageServerCommonConfiguration.WorkQueueMaxFailureCount` are the fields of `ServerSettings`.
- `Path.Combine` is modelled as joining with "/". Its handling of rooted second arguments and trailing separators is left out.
- `DicomProcessingResult.SetError` is not part of this model. It is taken to record the status and message and to clear `Successful`. Messages are reasons, not formatted text.
- The persistent store is a map from UID keys to rows; update contexts and commits are left out.
- Logging and argument null checks are left out.
- Integers are unbounded. The 32-bit `int` arithmetic of the code would wrap around in `_presentationNextInstanceNumber++` and `_maxSeriesNumber.Value + 1` (`KeyImageInformation.cs:358`, `:369`), `sop.FailureCount++` (`DuplicateSopProcessorHelper.cs:221`) and `2*volume.SizeInVoxels` (`VolumeCache.cs:313`). None of these comes near 2^31 at realistic numbers of instances, series, retries or voxels, so the wrap-around is not modelled.

## Findings

| source | as written | input that shows it | evidently intended | confidence | as-written member | corrected member |
|---|---|---|---|---|---|---|
| ImageViewer/Volume/Mpr/VolumeCache.cs:592-606 | the stream is hashed before the `StreamWriter` is flushed, so only whole 1024-character buffers reach it, and a just-filled last buffer does not reach it either | the one-frame lists `FrameA` and `FrameB`, which differ only in SOP instance UID, get the same key as the empty list | the key is the MD5 of the whole key text | medium, not executed | CacheKeys.AsWrittenKeyCollision | CacheKeys.IntendedKeySeparates |
| ImageServer/Core/Process/DuplicateSopProcessorHelper.cs:221 | `columns.FailureCount = sop.FailureCount++` stores the count from before the increment | a UID row with count 0 below the maximum, failed again after every reload: the row never changes | the row gets the incremented count, so after the maximum number of retries the UID is failed | high, not executed | DuplicateSopProcessing.AsWrittenNeverFails | DuplicateSopProcessing.CorrectedEventuallyFails |
| ImageViewer/Volume/Mpr/VolumeCache.cs:426-430 | the queued teardown calls `RemoveVolumeCore` first, which dereferences the null table once the cache is disposed | create an entry, dispose the cache, dispose the handle, run the queued teardown: it throws and no frame is released | the entry's volume and frame references are released whether or not the cache is still open | medium, not executed | VolumeCacheScenarios.AsWrittenTeardownAfterCacheDisposed | VolumeCacheScenarios.TeardownAfterCacheDisposed |

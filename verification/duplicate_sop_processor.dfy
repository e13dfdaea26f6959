/**
 * Handling of a duplicate SOP instance received by the image server.
 *
 * `Process` picks, by an ordered decision table over the SOP class and the
 * partition's settings, whether the duplicate is stored for later
 * reconciliation (and how), acknowledged, or rejected; storing it appends
 * directory, save and work-queue commands to the context's command
 * processor. `FailUid` records a failed attempt on a work queue UID row.
 * Commands are values appended to a sequence; their execution, the
 * persistent store and logging are outside the model.
 */
module DuplicateSopProcessing {
  import opened Wrappers

  const EncapsulatedPdfStorageUid := "1.2.840.10008.5.1.4.1.1.104.1"
  const EncapsulatedCdaStorageUid := "1.2.840.10008.5.1.4.1.1.104.2"

  /** The partition's duplicate SOP policy; `OtherPolicy` is any value the table does not name. */
  datatype DuplicateSopPolicy = SendSuccess | RejectDuplicates | CompareDuplicates | OtherPolicy(name: string)

  /** How the stored duplicate is to be reconciled. */
  datatype DuplicateProcessing = OverwriteSop | OverwriteReport | Compare

  datatype DicomStatus = StatusSuccess | DuplicateSopInstance

  datatype ErrorReason = RejectedDuplicate(sopInstanceUid: string) | UnsupportedPolicy(policy: DuplicateSopPolicy)

  datatype ServerPartition = ServerPartition(acceptLatestReport: bool, duplicateSopPolicy: DuplicateSopPolicy)

  /** Where the study lives; `policyOverridden` is what `DuplicatePolicy.IsParitionDuplicatePolicyOverridden` answers for it. */
  datatype StudyStorageLocation = StudyStorageLocation(
    filesystemPath: string,
    partitionFolder: string,
    studyInstanceUid: string,
    partition: ServerPartition,
    policyOverridden: bool)

  /** The identifying attributes of the received file, empty when absent. */
  datatype DicomFile = DicomFile(
    studyInstanceUid: string,
    seriesInstanceUid: string,
    sopInstanceUid: string,
    sopClassUid: string,
    accessionNumber: string)

  /** The study-process work queue data passed through to the work queue command. */
  datatype WorkQueueData = WorkQueueData(id: nat)

  datatype WorkQueueUidData = WorkQueueUidData(
    extension: string,
    groupId: string,
    duplicateProcessing: DuplicateProcessing,
    operationToken: Option<string>)

  /** The server-wide settings the helper reads. */
  datatype ServerSettings = ServerSettings(
    duplicateFileExtension: string,
    reconcileStorageFolder: string,
    workQueueMaxFailureCount: int)

  datatype Command =
    | FileDelete(path: string, flag: bool)
    | CreateDirectory(path: string)
    | SaveDicomFile(path: string, file: DicomFile, flag: bool)
    | UpdateWorkQueue(file: DicomFile, location: StudyStorageLocation, duplicate: bool, data: WorkQueueData,
                      uidData: WorkQueueUidData, operationToken: Option<string>)
    | DeleteWorkQueueUid(uidKey: nat)

  datatype ProcessingResult = ProcessingResult(
    status: DicomStatus,
    successful: bool,
    error: Option<ErrorReason>,
    studyInstanceUid: string,
    seriesInstanceUid: string,
    sopInstanceUid: string,
    sopClassUid: string,
    accessionNumber: string)

  /** The commands a processor has been given, in order. */
  class CommandProcessor {
    var commands: seq<Command>

    constructor ()
      ensures commands == []
    {
      commands := [];
    }

    method AddCommand(c: Command)
      modifies this
      ensures commands == old(commands) + [c]
    {
      commands := commands + [c];
    }
  }

  /** The processing context: processor, study location, group and the request's operation token, if any. */
  datatype ProcessorContext = ProcessorContext(
    processor: CommandProcessor,
    location: StudyStorageLocation,
    group: string,
    operationToken: Option<string>)

  function SopClassIsReport(sopClassUid: string): (r: bool)
    ensures r ==> |sopClassUid| == 29 && sopClassUid[..27] == "1.2.840.10008.5.1.4.1.1.104"
    ensures r <==> sopClassUid in {EncapsulatedPdfStorageUid, EncapsulatedCdaStorageUid}
  {
    EncapsulatedPdfStorageUid == sopClassUid || EncapsulatedCdaStorageUid == sopClassUid
  }

  /** What happens to a duplicate: stored for reconciliation, acknowledged, or rejected. */
  datatype Decision = Store(processing: DuplicateProcessing) | Acknowledge | Reject(reason: ErrorReason)

  /** The decision table of `Process`, in its order of precedence. */
  function Decide(file: DicomFile, location: StudyStorageLocation): Decision
  {
    if SopClassIsReport(file.sopClassUid) && location.partition.acceptLatestReport then Store(OverwriteReport)
    else if location.policyOverridden then Store(OverwriteSop)
    else
      match location.partition.duplicateSopPolicy
      case SendSuccess => Acknowledge
      case RejectDuplicates => Reject(RejectedDuplicate(file.sopInstanceUid))
      case CompareDuplicates => Store(Compare)
      case OtherPolicy(_) => Reject(UnsupportedPolicy(location.partition.duplicateSopPolicy))
  }

  /** A latest report is accepted whatever the duplicate policy and its override say. */
  lemma ReportTakesPrecedence(file: DicomFile, location: StudyStorageLocation)
    requires SopClassIsReport(file.sopClassUid) && location.partition.acceptLatestReport
    ensures forall p: DuplicateSopPolicy, o: bool ::
              Decide(file, location.(partition := location.partition.(duplicateSopPolicy := p), policyOverridden := o))
              == Store(OverwriteReport)
  {
  }

  /** An overridden policy overwrites every duplicate that is not an accepted report, whatever the policy. */
  lemma OverrideTakesPrecedence(file: DicomFile, location: StudyStorageLocation)
    requires location.policyOverridden
    requires !(SopClassIsReport(file.sopClassUid) && location.partition.acceptLatestReport)
    ensures forall p: DuplicateSopPolicy ::
              Decide(file, location.(partition := location.partition.(duplicateSopPolicy := p)))
              == Store(OverwriteSop)
  {
  }

  /** A duplicate is refused exactly when no earlier rule applies and the policy neither acknowledges nor compares. */
  lemma RejectedExactly(file: DicomFile, location: StudyStorageLocation)
    ensures Decide(file, location).Reject? <==>
              && !(SopClassIsReport(file.sopClassUid) && location.partition.acceptLatestReport)
              && !location.policyOverridden
              && location.partition.duplicateSopPolicy !in {SendSuccess, CompareDuplicates}
  {
  }

  /** Path joining with "/". */
  function Join(a: string, b: string): (p: string)
    ensures |p| == |a| + 1 + |b| && p[..|a| + 1] == a + "/"
  {
    a + "/" + b
  }

  /** The folder the duplicate is saved in, and the folders above it down from the partition folder. */
  function DuplicateFolders(location: StudyStorageLocation, group: string, settings: ServerSettings)
    : (folders: seq<string>)
    ensures |folders| == 4
  {
    var partition := Join(location.filesystemPath, location.partitionFolder);
    var reconcile := Join(partition, settings.reconcileStorageFolder);
    var groupFolder := Join(reconcile, group);
    [partition, reconcile, groupFolder, Join(groupFolder, location.studyInstanceUid)]
  }

  /** `<filesystem>/<partition>/<reconcile>/<group>/<study>/<sop>.<extension>` */
  function DuplicatePath(location: StudyStorageLocation, group: string, sopInstanceUid: string,
                         settings: ServerSettings): string
  {
    Join(DuplicateFolders(location, group, settings)[3], sopInstanceUid) + "." + settings.duplicateFileExtension
  }

  /** Each folder is created inside the one before it, and the file inside the last. */
  lemma DuplicateFoldersNest(location: StudyStorageLocation, group: string, sopInstanceUid: string,
                             settings: ServerSettings)
    ensures var folders := DuplicateFolders(location, group, settings);
            var path := DuplicatePath(location, group, sopInstanceUid, settings);
            && folders[0] == location.filesystemPath + "/" + location.partitionFolder
            && (forall k :: 0 < k < 4 ==> IsInside(folders[k], folders[k - 1]))
            && IsInside(path, folders[3])
            && path[|folders[3]| + 1..] == sopInstanceUid + "." + settings.duplicateFileExtension
  {
  }

  /** `path` names something inside the folder `folder`. */
  ghost predicate IsInside(path: string, folder: string)
  {
    |folder| + 1 < |path| + 1 && path[..|folder| + 1] == folder + "/"
  }

  /** The commands `SaveDuplicate` appends. */
  function SaveCommands(location: StudyStorageLocation, group: string, file: DicomFile, settings: ServerSettings)
    : seq<Command>
  {
    var folders := DuplicateFolders(location, group, settings);
    [CreateDirectory(folders[0]), CreateDirectory(folders[1]), CreateDirectory(folders[2]),
     CreateDirectory(folders[3]),
     SaveDicomFile(DuplicatePath(location, group, file.sopInstanceUid, settings), file, true)]
  }

  /** The commands `ProcessStoredDuplicate` appends. */
  function StoreCommands(ctx: ProcessorContext, file: DicomFile, data: WorkQueueData,
                         processing: DuplicateProcessing, settings: ServerSettings): seq<Command>
  {
    SaveCommands(ctx.location, ctx.group, file, settings)
    + [UpdateWorkQueue(file, ctx.location, true, data,
                       WorkQueueUidData(settings.duplicateFileExtension, ctx.group, processing, ctx.operationToken),
                       ctx.operationToken)]
  }

  /** Creates the duplicate's folders one level at a time, then saves the file in the last one. */
  method SaveDuplicate(ctx: ProcessorContext, file: DicomFile, settings: ServerSettings)
    modifies ctx.processor
    ensures ctx.processor.commands == old(ctx.processor.commands) + SaveCommands(ctx.location, ctx.group, file, settings)
  {
    var sopUid := file.sopInstanceUid;
    var path := Join(ctx.location.filesystemPath, ctx.location.partitionFolder);
    ctx.processor.AddCommand(CreateDirectory(path));
    path := Join(path, settings.reconcileStorageFolder);
    ctx.processor.AddCommand(CreateDirectory(path));
    path := Join(path, ctx.group);
    ctx.processor.AddCommand(CreateDirectory(path));
    path := Join(path, ctx.location.studyInstanceUid);
    ctx.processor.AddCommand(CreateDirectory(path));
    path := Join(path, sopUid);
    path := path + "." + settings.duplicateFileExtension;
    ctx.processor.AddCommand(SaveDicomFile(path, file, true));
  }

  /** Saves the duplicate and queues its reconciliation with the given processing. */
  method ProcessStoredDuplicate(ctx: ProcessorContext, file: DicomFile, data: WorkQueueData,
                                duplicate: DuplicateProcessing, settings: ServerSettings)
    modifies ctx.processor
    ensures ctx.processor.commands
            == old(ctx.processor.commands) + StoreCommands(ctx, file, data, duplicate, settings)
  {
    SaveDuplicate(ctx, file, settings);
    var uidData := WorkQueueUidData(settings.duplicateFileExtension, ctx.group, duplicate, None);
    if ctx.operationToken.Some? {
      uidData := uidData.(operationToken := ctx.operationToken);
    }
    ctx.processor.AddCommand(UpdateWorkQueue(file, ctx.location, true, data, uidData, ctx.operationToken));
  }

  /** The result before any error is set: success, carrying the file's identifying attributes. */
  function InitialResult(file: DicomFile): (r: ProcessingResult)
    ensures r.successful && r.status == StatusSuccess && r.error == None
    ensures r.sopInstanceUid == file.sopInstanceUid && r.sopClassUid == file.sopClassUid
  {
    ProcessingResult(StatusSuccess, true, None, file.studyInstanceUid, file.seriesInstanceUid,
                     file.sopInstanceUid, file.sopClassUid, file.accessionNumber)
  }

  /** `SetError`: the status and reason are recorded and the result is no longer successful. */
  function SetError(r: ProcessingResult, status: DicomStatus, reason: ErrorReason): (e: ProcessingResult)
    ensures !e.successful && e.status == status && e.error == Some(reason)
    ensures e.sopInstanceUid == r.sopInstanceUid && e.studyInstanceUid == r.studyInstanceUid
  {
    r.(status := status, successful := false, error := Some(reason))
  }

  /**
   * Handles one duplicate by the decision table: a stored duplicate appends its
   * save and work-queue commands and succeeds, an acknowledged one succeeds
   * with no command, and a refused one fails with a duplicate-instance status
   * and no command.
   */
  method Process(ctx: ProcessorContext, file: DicomFile, data: WorkQueueData, settings: ServerSettings)
    returns (result: ProcessingResult)
    modifies ctx.processor
    ensures Decide(file, ctx.location).Store? ==>
              && result == InitialResult(file)
              && ctx.processor.commands
                 == old(ctx.processor.commands)
                    + StoreCommands(ctx, file, data, Decide(file, ctx.location).processing, settings)
    ensures Decide(file, ctx.location).Acknowledge? ==>
              result == InitialResult(file) && ctx.processor.commands == old(ctx.processor.commands)
    ensures Decide(file, ctx.location).Reject? ==>
              && result == SetError(InitialResult(file), DuplicateSopInstance, Decide(file, ctx.location).reason)
              && ctx.processor.commands == old(ctx.processor.commands)
    ensures result.successful <==> result.status == StatusSuccess
    ensures !result.successful ==> ctx.processor.commands == old(ctx.processor.commands)
  {
    result := InitialResult(file);
    var partition := ctx.location.partition;
    if SopClassIsReport(result.sopClassUid) && partition.acceptLatestReport {
      ProcessStoredDuplicate(ctx, file, data, OverwriteReport, settings);
      return;
    }
    if ctx.location.policyOverridden {
      ProcessStoredDuplicate(ctx, file, data, OverwriteSop, settings);
      return;
    }
    if partition.duplicateSopPolicy == SendSuccess {
      return;
    }
    if partition.duplicateSopPolicy == RejectDuplicates {
      result := SetError(result, DuplicateSopInstance, RejectedDuplicate(result.sopInstanceUid));
      return;
    }
    if partition.duplicateSopPolicy == CompareDuplicates {
      ProcessStoredDuplicate(ctx, file, data, Compare, settings);
    } else {
      result := SetError(result, DuplicateSopInstance, UnsupportedPolicy(partition.duplicateSopPolicy));
      return;
    }
  }

  /** The persisted columns of a work queue UID row. */
  datatype UidRow = UidRow(failed: bool, failureCount: int)

  /** The columns an update sets; absent ones are left as they are. */
  datatype UpdateColumns = UpdateColumns(failed: Option<bool>, failureCount: Option<int>)

  function ApplyColumns(row: UidRow, columns: UpdateColumns): (r: UidRow)
    ensures columns.failed.None? ==> r.failed == row.failed
    ensures columns.failureCount.None? ==> r.failureCount == row.failureCount
    ensures columns.failed.Some? ==> r.failed == columns.failed.value
    ensures columns.failureCount.Some? ==> r.failureCount == columns.failureCount.value
  {
    UidRow(if columns.failed.Some? then columns.failed.value else row.failed,
           if columns.failureCount.Some? then columns.failureCount.value else row.failureCount)
  }

  /**
   * The columns `FailUid` writes, as the code is written: without retry, or
   * with the count at the maximum, the row is marked failed; otherwise the
   * count column gets the count from before the increment.
   */
  function FailColumnsAsWritten(count: int, retry: bool, maxFailureCount: int): UpdateColumns
  {
    if !retry || count >= maxFailureCount then UpdateColumns(Some(true), None)
    else UpdateColumns(None, Some(count))
  }

  /** The columns `FailUid` is meant to write: the incremented count. */
  function FailColumns(count: int, retry: bool, maxFailureCount: int): UpdateColumns
  {
    if !retry || count >= maxFailureCount then UpdateColumns(Some(true), None)
    else UpdateColumns(None, Some(count + 1))
  }

  /** A work queue UID as loaded in memory. */
  class WorkQueueUid {
    const key: nat
    var failureCount: int

    constructor (key: nat, failureCount: int)
      ensures this.key == key && this.failureCount == failureCount
    {
      this.key := key;
      this.failureCount := failureCount;
    }
  }

  /** The persisted work queue UID rows, by key. */
  class UidStore {
    var rows: map<nat, UidRow>

    constructor (rows: map<nat, UidRow>)
      ensures this.rows == rows
    {
      this.rows := rows;
    }

    /** An update of a key with no row changes nothing. */
    method Update(key: nat, columns: UpdateColumns)
      modifies this
      ensures rows == if key in old(rows) then old(rows)[key := ApplyColumns(old(rows)[key], columns)] else old(rows)
    {
      if key in rows {
        rows := rows[key := ApplyColumns(rows[key], columns)];
      }
    }
  }

  /** `FailUid` as written: the column gets the in-memory count before its increment. */
  method FailUidAsWritten(store: UidStore, sop: WorkQueueUid, retry: bool, maxFailureCount: int)
    modifies store, sop
    ensures sop.failureCount
            == old(sop.failureCount) + (if retry && old(sop.failureCount) < maxFailureCount then 1 else 0)
    ensures store.rows
            == if sop.key in old(store.rows)
               then old(store.rows)[sop.key := ApplyColumns(old(store.rows)[sop.key],
                                                            FailColumnsAsWritten(old(sop.failureCount), retry, maxFailureCount))]
               else old(store.rows)
  {
    var columns := UpdateColumns(None, None);
    if !retry {
      columns := columns.(failed := Some(true));
    } else {
      if sop.failureCount >= maxFailureCount {
        columns := columns.(failed := Some(true));
      } else {
        columns := columns.(failureCount := Some(sop.failureCount));
        sop.failureCount := sop.failureCount + 1;
      }
    }
    store.Update(sop.key, columns);
  }

  /** `FailUid` as intended: the column gets the incremented count. */
  method FailUid(store: UidStore, sop: WorkQueueUid, retry: bool, maxFailureCount: int)
    modifies store, sop
    ensures sop.failureCount
            == old(sop.failureCount) + (if retry && old(sop.failureCount) < maxFailureCount then 1 else 0)
    ensures store.rows
            == if sop.key in old(store.rows)
               then old(store.rows)[sop.key := ApplyColumns(old(store.rows)[sop.key],
                                                            FailColumns(old(sop.failureCount), retry, maxFailureCount))]
               else old(store.rows)
  {
    var columns := UpdateColumns(None, None);
    if !retry {
      columns := columns.(failed := Some(true));
    } else {
      if sop.failureCount >= maxFailureCount {
        columns := columns.(failed := Some(true));
      } else {
        sop.failureCount := sop.failureCount + 1;
        columns := columns.(failureCount := Some(sop.failureCount));
      }
    }
    store.Update(sop.key, columns);
  }

  /**
   * The row after `n` failed attempts, each loading the UID from the row and
   * calling `FailUid` with retry.
   */
  function RetryRounds(row: UidRow, maxFailureCount: int, n: nat, corrected: bool): UidRow
    decreases n
  {
    if n == 0 then row
    else
      var columns := if corrected then FailColumns(row.failureCount, true, maxFailureCount)
                     else FailColumnsAsWritten(row.failureCount, true, maxFailureCount);
      RetryRounds(ApplyColumns(row, columns), maxFailureCount, n - 1, corrected)
  }

  /** As written, a row below the maximum is rewritten unchanged by every attempt, so it is never failed. */
  lemma {:induction false} AsWrittenNeverFails(row: UidRow, maxFailureCount: int, n: nat)
    requires !row.failed && row.failureCount < maxFailureCount
    ensures RetryRounds(row, maxFailureCount, n, false) == row
  {
    if n > 0 {
      assert ApplyColumns(row, FailColumnsAsWritten(row.failureCount, true, maxFailureCount)) == row;
      AsWrittenNeverFails(row, maxFailureCount, n - 1);
    }
  }

  /** As intended, each attempt below the maximum raises the persisted count by one. */
  lemma {:induction false} CorrectedCounts(row: UidRow, maxFailureCount: int, n: nat)
    requires !row.failed && row.failureCount + n <= maxFailureCount
    ensures RetryRounds(row, maxFailureCount, n, true) == UidRow(false, row.failureCount + n)
    decreases n
  {
    if n > 0 {
      CorrectedCounts(UidRow(false, row.failureCount + 1), maxFailureCount, n - 1);
    }
  }

  /** As intended, a row is marked failed after its remaining attempts and one more. */
  lemma CorrectedEventuallyFails(row: UidRow, maxFailureCount: int)
    requires !row.failed && row.failureCount <= maxFailureCount
    ensures RetryRounds(row, maxFailureCount, maxFailureCount - row.failureCount + 1, true).failed
  {
    var n := maxFailureCount - row.failureCount;
    CorrectedCounts(row, maxFailureCount, n);
    RetryRoundsSplit(row, maxFailureCount, n, 1, true);
  }

  lemma {:induction false} RetryRoundsSplit(row: UidRow, maxFailureCount: int, n: nat, m: nat, corrected: bool)
    ensures RetryRounds(row, maxFailureCount, n + m, corrected)
            == RetryRounds(RetryRounds(row, maxFailureCount, n, corrected), maxFailureCount, m, corrected)
    decreases n
  {
    if n > 0 {
      var columns := if corrected then FailColumns(row.failureCount, true, maxFailureCount)
                     else FailColumnsAsWritten(row.failureCount, true, maxFailureCount);
      RetryRoundsSplit(ApplyColumns(row, columns), maxFailureCount, n - 1, m, corrected);
    }
  }

  /** A work queue entry: its group, if set, and its key. */
  datatype WorkQueue = WorkQueue(groupId: Option<string>, key: string)

  /** The rows after the UID's row is failed with retry, by `FailUid` as written. */
  function RowsFailedAsWritten(rows: map<nat, UidRow>, key: nat, count: int, maxFailureCount: int)
    : (rows': map<nat, UidRow>)
    ensures rows'.Keys == rows.Keys
    ensures forall k :: k in rows && k != key ==> rows'[k] == rows[k]
    ensures key in rows && count < maxFailureCount ==> rows'[key] == rows[key].(failureCount := count)
    ensures key in rows && count >= maxFailureCount ==> rows'[key] == rows[key].(failed := true)
  {
    if key in rows then rows[key := ApplyColumns(rows[key], FailColumnsAsWritten(count, true, maxFailureCount))]
    else rows
  }

  /** The group of a work queue entry's UIDs: its group if set, else its key. */
  function UidGroup(queue: WorkQueue): string
  {
    if queue.groupId.Some? then queue.groupId.value else queue.key
  }

  /**
   * The commands queued for a duplicate that is not refused: the source file's
   * deletion, the save and work-queue commands of a stored duplicate (none for
   * an acknowledged one), and the UID's deletion.
   */
  function DuplicateCommands(file: DicomFile, location: StudyStorageLocation, sourcePath: string,
                             queue: WorkQueue, uid: nat, data: WorkQueueData, settings: ServerSettings,
                             processor: CommandProcessor): seq<Command>
  {
    var ctx := ProcessorContext(processor, location, UidGroup(queue), None);
    var decision := Decide(file, location);
    [FileDelete(sourcePath, true)]
    + (if decision.Store? then StoreCommands(ctx, file, data, decision.processing, settings) else [])
    + [DeleteWorkQueueUid(uid)]
  }

  /**
   * Queues the deletion of the source file and the processing of the
   * duplicate; a refused duplicate fails the UID (with retry) and nothing is
   * executed. Otherwise the UID's deletion is queued too and the commands are
   * executed (`executes` says whether that succeeds); a failed execution fails
   * the UID. The UID is failed by `FailUid` as written.
   */
  method CreateDuplicateSiqEntry(file: DicomFile, location: StudyStorageLocation, sourcePath: string,
                                 queue: WorkQueue, uid: WorkQueueUid, data: WorkQueueData,
                                 settings: ServerSettings, store: UidStore, executes: bool)
    returns (processor: CommandProcessor, executed: bool)
    modifies store, uid
    ensures fresh(processor)
    ensures var max := settings.workQueueMaxFailureCount;
            var failed := RowsFailedAsWritten(old(store.rows), uid.key, old(uid.failureCount), max);
            var counted := old(uid.failureCount) + (if old(uid.failureCount) < max then 1 else 0);
            if Decide(file, location).Reject? then
              && processor.commands == [FileDelete(sourcePath, true)] && !executed
              && store.rows == failed && uid.failureCount == counted
            else
              && processor.commands
                 == DuplicateCommands(file, location, sourcePath, queue, uid.key, data, settings, processor)
              && executed
              && (executes ==> store.rows == old(store.rows) && uid.failureCount == old(uid.failureCount))
              && (!executes ==> store.rows == failed && uid.failureCount == counted)
  {
    var uidGroup := UidGroup(queue);
    processor := new CommandProcessor();
    processor.AddCommand(FileDelete(sourcePath, true));
    var ctx := ProcessorContext(processor, location, uidGroup, None);
    var result := Process(ctx, file, data, settings);
    if !result.successful {
      FailUidAsWritten(store, uid, true, settings.workQueueMaxFailureCount);
      return processor, false;
    }
    processor.AddCommand(DeleteWorkQueueUid(uid.key));
    executed := true;
    if !executes {
      FailUidAsWritten(store, uid, true, settings.workQueueMaxFailureCount);
    }
  }
}

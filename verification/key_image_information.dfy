/**
 * Change tracking and numbering of a key-image (key object selection)
 * document under construction.
 *
 * `KeyImageInformation` holds the document's editable attributes and its
 * clipboard item list; every setter that changes a value, and every change of
 * the list once the document is subscribed to it, sets `hasChanges`, and
 * nothing clears it. `CreateSopInstances` decides what would be serialised:
 * one entry per key image, and a new presentation state for each changed
 * image, numbered per study by a `StudyInfo`. The DICOM serialisation itself
 * is not modelled.
 */
module KeyImages {
  import opened Wrappers

  /** A coded document title (code value, coding scheme designator, code meaning). */
  datatype DocumentTitle = DocumentTitle(codeValue: string, codingScheme: string, meaning: string)

  /** The default title, "Of Interest" from the key object selection document title context group. */
  const OfInterest := DocumentTitle("113000", "DCM", "Of Interest")

  const KeyObjectSelectionDocumentStorageUid := "1.2.840.10008.5.1.4.1.1.88.59"

  datatype FrameRef = FrameRef(studyInstanceUid: string, sopInstanceUid: string, frameNumber: nat)

  /** A presentation state referenced by a key image. */
  datatype PresentationState =
    | Existing(sopInstanceUid: string)
    | Created(studyInstanceUid: string, seriesNumber: int, instanceNumber: int)

  /** What a clipboard item holds, as far as `CreateSopInstances` distinguishes it. */
  datatype ImageKind =
    | Placeholder(keyImage: FrameRef, presentationState: Option<PresentationState>)
      // a key image whose source study was not available
    | SopImage(frame: FrameRef, isDicom: bool, current: Option<PresentationState>, supported: bool)
      // an image with a source SOP; `isDicom` for a DICOM presentation image, `current` its DICOM
      // softcopy presentation state, `supported` whether a presentation state can be created for it
    | OtherImage     // a presentation image without a source SOP
    | NotAnImage     // an item that is not a presentation image

  datatype ClipboardItem = ClipboardItem(item: ImageKind, hasChanges: bool)

  /** One key image handed to the serialiser, with the presentation state it refers to. */
  datatype KeyImageEntry = KeyImageEntry(frame: FrameRef, presentationState: Option<PresentationState>)

  /** What `CreateSopInstances` would serialise. */
  datatype SopInstancePlan =
    | NothingToSave
    | Plan(entries: seq<KeyImageEntry>, created: seq<PresentationState>, studies: map<string, StudyInfo>)

  /** A stored key object selection document, as the loading constructor reads it. */
  datatype KeyObjectDocument = KeyObjectDocument(
    sopClassUid: string,
    sopInstanceUid: string,
    seriesDescription: string,
    author: Option<string>,          // the first person observer name, if any
    description: Option<string>,     // the first key object description, if any
    title: Option<DocumentTitle>,
    images: seq<ImageKind>)

  datatype LoadError = NotKeyObjectSelection

  /** The series description of a new selection: the default text, naming the author if there is one. */
  function NewSeriesDescription(defaultText: string, author: string): (s: string)
    ensures |s| >= |defaultText| && s[..|defaultText|] == defaultText
  {
    if author == "" then defaultText else defaultText + " (" + author + ")"
  }

  /** The author is appended exactly when there is one, and can be read back from the description. */
  lemma NewSeriesDescriptionNamesAuthor(defaultText: string, author: string)
    ensures NewSeriesDescription(defaultText, author) == defaultText <==> author == ""
    ensures author != "" ==>
              NewSeriesDescription(defaultText, author)[|defaultText| + 2..|defaultText| + 2 + |author|]
              == author
  {
    if author != "" {
      assert |NewSeriesDescription(defaultText, author)| == |defaultText| + |author| + 3;
    }
  }

  /** The frames of the key images, in clipboard order. */
  function SelectedFrames(items: seq<ClipboardItem>): (frames: seq<FrameRef>)
    ensures |frames| <= |items|
  {
    if items == [] then []
    else
      var rest := SelectedFrames(items[..|items| - 1]);
      match items[|items| - 1].item
      case Placeholder(k, _) => rest + [k]
      case SopImage(f, _, _, _) => rest + [f]
      case _ => rest
  }

  /** The studies that get a study record: those of items with a source SOP. */
  function StudiesOf(items: seq<ClipboardItem>): set<string>
  {
    if items == [] then {}
    else
      var rest := StudiesOf(items[..|items| - 1]);
      match items[|items| - 1].item
      case SopImage(f, _, _, _) => rest + {f.studyInstanceUid}
      case _ => rest
  }

  /** The frame of the first item of study `s`: the one its study record is made from. */
  function FirstFrameOf(items: seq<ClipboardItem>, s: string): (f: FrameRef)
    requires s in StudiesOf(items)
    ensures f.studyInstanceUid == s
  {
    var rest := items[..|items| - 1];
    if s in StudiesOf(rest) then FirstFrameOf(rest, s) else items[|items| - 1].item.frame
  }

  /** How many created presentation states belong to study `s`. */
  function CountStudy(states: seq<PresentationState>, s: string): (n: nat)
    ensures n <= |states|
  {
    if states == [] then 0
    else
      CountStudy(states[..|states| - 1], s)
      + (if states[|states| - 1].Created? && states[|states| - 1].studyInstanceUid == s then 1 else 0)
  }

  function Frames(entries: seq<KeyImageEntry>): seq<FrameRef>
  {
    if entries == [] then [] else Frames(entries[..|entries| - 1]) + [entries[|entries| - 1].frame]
  }

  /** The first series number a study record hands out: the caller's delegate, or the highest existing number plus one. */
  function FirstSeriesNumber(next: Option<FrameRef -> int>, maxSeriesNumberOf: FrameRef -> int, f: FrameRef): int
  {
    if next.Some? then next.value(f) else maxSeriesNumberOf(f) + 1
  }

  /** Numbers handed out one after the other, each one more than the one before. */
  ghost predicate Consecutive(issued: seq<int>)
  {
    forall i :: 0 < i < |issued| ==> issued[i] == issued[i - 1] + 1
  }

  lemma {:induction false} ConsecutiveFromFirst(issued: seq<int>, i: nat)
    requires Consecutive(issued) && i < |issued|
    ensures issued[i] == issued[0] + i
  {
    if i > 0 {
      ConsecutiveFromFirst(issued, i - 1);
    }
  }

  /** The last number of a consecutive run is its largest, so the next one is new. */
  lemma ConsecutiveBelowLast(issued: seq<int>)
    requires Consecutive(issued) && issued != []
    ensures forall j :: 0 <= j < |issued| ==> issued[j] <= issued[|issued| - 1]
  {
    forall j | 0 <= j < |issued|
      ensures issued[j] <= issued[|issued| - 1]
    {
      ConsecutiveFromFirst(issued, j);
      ConsecutiveFromFirst(issued, |issued| - 1);
    }
  }

  /** The fallback series numbering: the study's highest series number, read once, plus one per call. */
  class DefaultNextSeriesNumberGetter {
    /** `KeyImagePublisher.GetMaxSeriesNumber`. */
    const maxSeriesNumberOf: FrameRef -> int
    var maxSeriesNumber: Option<int>
    /** The numbers returned so far. */
    ghost var issued: seq<int>
    /** The frame of the first call, the only one whose maximum is read. */
    ghost var firstFrame: Option<FrameRef>

    ghost predicate Valid()
      reads this
    {
      && (maxSeriesNumber.None? <==> issued == [])
      && (firstFrame.None? <==> issued == [])
      && (issued != [] ==>
            maxSeriesNumber == Some(issued[|issued| - 1])
            && issued[0] == maxSeriesNumberOf(firstFrame.value) + 1)
      && Consecutive(issued)
    }

    constructor (maxSeriesNumberOf: FrameRef -> int)
      ensures Valid() && this.maxSeriesNumberOf == maxSeriesNumberOf
      ensures maxSeriesNumber == None && issued == [] && firstFrame == None
    {
      this.maxSeriesNumberOf := maxSeriesNumberOf;
      maxSeriesNumber := None;
      issued := [];
      firstFrame := None;
    }

    method GetNextSeriesNumber(f: FrameRef) returns (n: int)
      requires Valid()
      modifies this
      ensures Valid()
      ensures issued == old(issued) + [n]
      ensures old(issued) == [] ==> n == maxSeriesNumberOf(f) + 1 && firstFrame == Some(f)
      ensures old(issued) != [] ==>
                n == old(issued)[|old(issued)| - 1] + 1 && firstFrame == old(firstFrame)
    {
      if maxSeriesNumber.None? {
        maxSeriesNumber := Some(maxSeriesNumberOf(f));
        firstFrame := Some(f);
      }
      n := maxSeriesNumber.value + 1;
      maxSeriesNumber := Some(n);
      issued := issued + [n];
    }
  }

  /**
   * The per-study record of one `CreateSopInstances` run: presentation
   * instance numbers 1, 2, 3, … and the two series numbers, each asked of the
   * numbering delegate at most once.
   */
  class StudyInfo {
    const studyInstanceUid: string
    /** The frame of the image the record was made from. */
    const frame: FrameRef
    /** The caller's numbering delegate, if one was given. */
    const nextSeriesNumber: Option<FrameRef -> int>
    ghost const maxSeriesNumberOf: FrameRef -> int
    /** Present exactly when no delegate was given. */
    const defaultGetter: DefaultNextSeriesNumberGetter?

    var presentationNextInstanceNumber: int
    var presentationSeriesNumber: Option<int>
    var keyObjectSeriesNumber: Option<int>
    /** The series numbers the delegate has returned, in order. */
    ghost var seriesNumbersIssued: seq<int>

    ghost predicate Valid()
      reads this, defaultGetter
    {
      && presentationNextInstanceNumber >= 1
      && (nextSeriesNumber.None? <==> defaultGetter != null)
      && (defaultGetter != null ==>
            && defaultGetter.Valid()
            && defaultGetter.maxSeriesNumberOf == maxSeriesNumberOf
            && defaultGetter.issued == seriesNumbersIssued
            && (seriesNumbersIssued != [] ==> defaultGetter.firstFrame == Some(frame)))
      && (nextSeriesNumber.Some? ==>
            forall j :: 0 <= j < |seriesNumbersIssued| ==>
              seriesNumbersIssued[j] == nextSeriesNumber.value(frame))
      && |seriesNumbersIssued|
         == (if presentationSeriesNumber.Some? then 1 else 0)
            + (if keyObjectSeriesNumber.Some? then 1 else 0)
      && (presentationSeriesNumber.Some? ==> presentationSeriesNumber.value in seriesNumbersIssued)
      && (keyObjectSeriesNumber.Some? ==> keyObjectSeriesNumber.value in seriesNumbersIssued)
      && (defaultGetter != null && presentationSeriesNumber.Some? && keyObjectSeriesNumber.Some? ==>
            presentationSeriesNumber.value != keyObjectSeriesNumber.value)
    }

    constructor (frame: FrameRef, nextSeriesNumber: Option<FrameRef -> int>, maxSeriesNumberOf: FrameRef -> int)
      ensures Valid()
      ensures studyInstanceUid == frame.studyInstanceUid && this.frame == frame
      ensures this.nextSeriesNumber == nextSeriesNumber && this.maxSeriesNumberOf == maxSeriesNumberOf
      ensures defaultGetter != null ==> fresh(defaultGetter)
      ensures presentationNextInstanceNumber == 1
      ensures presentationSeriesNumber == None && keyObjectSeriesNumber == None
      ensures seriesNumbersIssued == []
    {
      studyInstanceUid := frame.studyInstanceUid;
      this.frame := frame;
      this.nextSeriesNumber := nextSeriesNumber;
      this.maxSeriesNumberOf := maxSeriesNumberOf;
      if nextSeriesNumber.None? {
        defaultGetter := new DefaultNextSeriesNumberGetter(maxSeriesNumberOf);
      } else {
        defaultGetter := null;
      }
      presentationNextInstanceNumber := 1;
      presentationSeriesNumber := None;
      keyObjectSeriesNumber := None;
      seriesNumbersIssued := [];
    }

    /** One call of the numbering delegate on this study's frame. */
    method NextSeriesNumber() returns (n: int)
      requires Valid()
      modifies this`seriesNumbersIssued, defaultGetter
      ensures seriesNumbersIssued == old(seriesNumbersIssued) + [n]
      ensures old(seriesNumbersIssued) == [] ==>
                n == FirstSeriesNumber(nextSeriesNumber, maxSeriesNumberOf, frame)
      ensures defaultGetter != null ==>
                defaultGetter.Valid() && defaultGetter.issued == seriesNumbersIssued
                && defaultGetter.firstFrame == Some(frame)
                && (forall j :: 0 <= j < |old(seriesNumbersIssued)| ==> old(seriesNumbersIssued)[j] < n)
      ensures nextSeriesNumber.Some? ==> n == nextSeriesNumber.value(frame)
    {
      if nextSeriesNumber.Some? {
        n := nextSeriesNumber.value(frame);
      } else {
        if seriesNumbersIssued != [] {
          ConsecutiveBelowLast(seriesNumbersIssued);
        }
        n := defaultGetter.GetNextSeriesNumber(frame);
      }
      seriesNumbersIssued := seriesNumbersIssued + [n];
    }

    /** The presentation state series number, asked of the delegate on first use only. */
    method PresentationSeriesNumber() returns (n: int)
      requires Valid()
      modifies this`presentationSeriesNumber, this`seriesNumbersIssued, defaultGetter
      ensures Valid() && presentationSeriesNumber == Some(n)
      ensures old(presentationSeriesNumber).Some? ==>
                n == old(presentationSeriesNumber).value && seriesNumbersIssued == old(seriesNumbersIssued)
      ensures old(presentationSeriesNumber).None? ==>
                seriesNumbersIssued == old(seriesNumbersIssued) + [n]
      ensures old(presentationSeriesNumber).None? && keyObjectSeriesNumber.None? ==>
                n == FirstSeriesNumber(nextSeriesNumber, maxSeriesNumberOf, frame)
    {
      if presentationSeriesNumber.None? {
        var m := NextSeriesNumber();
        presentationSeriesNumber := Some(m);
      }
      n := presentationSeriesNumber.value;
    }

    /** The key object series number, asked of the delegate on first use only. */
    method KeyObjectSeriesNumber() returns (n: int)
      requires Valid()
      modifies this`keyObjectSeriesNumber, this`seriesNumbersIssued, defaultGetter
      ensures Valid() && keyObjectSeriesNumber == Some(n)
      ensures old(keyObjectSeriesNumber).Some? ==>
                n == old(keyObjectSeriesNumber).value && seriesNumbersIssued == old(seriesNumbersIssued)
      ensures old(keyObjectSeriesNumber).None? ==>
                seriesNumbersIssued == old(seriesNumbersIssued) + [n]
      ensures old(keyObjectSeriesNumber).None? && presentationSeriesNumber.None? ==>
                n == FirstSeriesNumber(nextSeriesNumber, maxSeriesNumberOf, frame)
    {
      if keyObjectSeriesNumber.None? {
        var m := NextSeriesNumber();
        keyObjectSeriesNumber := Some(m);
      }
      n := keyObjectSeriesNumber.value;
    }

    /**
     * The numbering of one new presentation state of this study: the series
     * number first, then the next instance number.
     */
    method NumberPresentationState() returns (ps: PresentationState)
      requires Valid() && keyObjectSeriesNumber.None?
      requires presentationSeriesNumber.Some? ==>
                 presentationSeriesNumber.value == FirstSeriesNumber(nextSeriesNumber, maxSeriesNumberOf, frame)
      modifies this`presentationSeriesNumber, this`seriesNumbersIssued, this`presentationNextInstanceNumber,
               defaultGetter
      ensures Valid() && keyObjectSeriesNumber.None?
      ensures presentationSeriesNumber == Some(FirstSeriesNumber(nextSeriesNumber, maxSeriesNumberOf, frame))
      ensures ps == Created(studyInstanceUid, presentationSeriesNumber.value, old(presentationNextInstanceNumber))
      ensures presentationNextInstanceNumber == old(presentationNextInstanceNumber) + 1
    {
      var seriesNumber := PresentationSeriesNumber();
      var instanceNumber := GetNextPresentationInstanceNumber();
      ps := Created(studyInstanceUid, seriesNumber, instanceNumber);
    }

    /** Presentation instance numbers count up from 1 within the study. */
    method GetNextPresentationInstanceNumber() returns (n: int)
      requires Valid()
      modifies this`presentationNextInstanceNumber
      ensures Valid()
      ensures n == old(presentationNextInstanceNumber) && presentationNextInstanceNumber == n + 1
    {
      n := presentationNextInstanceNumber;
      presentationNextInstanceNumber := presentationNextInstanceNumber + 1;
    }
  }

  /** With the default numbering the two series of a study never share a number. */
  lemma DefaultSeriesNumbersDiffer(info: StudyInfo)
    requires info.Valid() && info.nextSeriesNumber.None?
    requires info.presentationSeriesNumber.Some? && info.keyObjectSeriesNumber.Some?
    ensures info.presentationSeriesNumber.value != info.keyObjectSeriesNumber.value
  {
  }

  /**
   * The state of study `s`'s record after the items `done`: made from the
   * study's first image, not yet asked for a key object series number, its
   * presentation series number (once asked) the first one the delegate hands
   * out, and its next instance number one past the presentation states
   * created for it so far.
   */
  ghost predicate StudyRecorded(info: StudyInfo, s: string, done: seq<ClipboardItem>,
                                created: seq<PresentationState>,
                                next: Option<FrameRef -> int>, maxSeriesNumberOf: FrameRef -> int)
    reads info, info.defaultGetter
  {
    && s in StudiesOf(done)
    && info.Valid()
    && info.studyInstanceUid == s
    && info.frame == FirstFrameOf(done, s)
    && info.nextSeriesNumber == next
    && info.maxSeriesNumberOf == maxSeriesNumberOf
    && info.keyObjectSeriesNumber.None?
    && (info.presentationSeriesNumber.Some? ==>
          info.presentationSeriesNumber.value == FirstSeriesNumber(next, maxSeriesNumberOf, info.frame))
    && info.presentationNextInstanceNumber == 1 + CountStudy(created, s)
  }

  /**
   * Every created presentation state belongs to a recorded study, carries that
   * study's first series number, and is numbered one past the earlier ones of
   * its study.
   */
  ghost predicate CreatedNumbered(created: seq<PresentationState>, studies: map<string, StudyInfo>,
                                  next: Option<FrameRef -> int>, maxSeriesNumberOf: FrameRef -> int)
  {
    forall j :: 0 <= j < |created| ==>
      && created[j].Created?
      && created[j].studyInstanceUid in studies
      && created[j].seriesNumber
         == FirstSeriesNumber(next, maxSeriesNumberOf, studies[created[j].studyInstanceUid].frame)
      && created[j].instanceNumber == 1 + CountStudy(created[..j], created[j].studyInstanceUid)
  }

  /** A new presentation state numbered after the earlier ones of its study keeps the numbering. */
  lemma CreatedNumberedAppend(created: seq<PresentationState>, ps: PresentationState,
                              studies: map<string, StudyInfo>,
                              next: Option<FrameRef -> int>, maxSeriesNumberOf: FrameRef -> int)
    requires CreatedNumbered(created, studies, next, maxSeriesNumberOf)
    requires ps.Created? && ps.studyInstanceUid in studies
    requires ps.seriesNumber == FirstSeriesNumber(next, maxSeriesNumberOf, studies[ps.studyInstanceUid].frame)
    requires ps.instanceNumber == 1 + CountStudy(created, ps.studyInstanceUid)
    ensures CreatedNumbered(created + [ps], studies, next, maxSeriesNumberOf)
  {
    var grown := created + [ps];
    forall j | 0 <= j < |grown|
      ensures grown[..j] == if j < |created| then created[..j] else created
    {
    }
  }

  /** Adding a study record keeps the numbering of the states created so far. */
  lemma CreatedNumberedGrow(created: seq<PresentationState>, studies: map<string, StudyInfo>, s: string,
                            info: StudyInfo, next: Option<FrameRef -> int>, maxSeriesNumberOf: FrameRef -> int)
    requires CreatedNumbered(created, studies, next, maxSeriesNumberOf) && s !in studies
    ensures CreatedNumbered(created, studies[s := info], next, maxSeriesNumberOf)
  {
  }

  /** How one more clipboard item extends the selection functions. */
  lemma AppendItem(done: seq<ClipboardItem>, item: ClipboardItem)
    ensures (done + [item])[..|done|] == done
    ensures item.item.Placeholder? ==> SelectedFrames(done + [item]) == SelectedFrames(done) + [item.item.keyImage]
    ensures item.item.SopImage? ==> SelectedFrames(done + [item]) == SelectedFrames(done) + [item.item.frame]
    ensures item.item.OtherImage? || item.item.NotAnImage? ==> SelectedFrames(done + [item]) == SelectedFrames(done)
    ensures StudiesOf(done + [item])
            == StudiesOf(done) + (if item.item.SopImage? then {item.item.frame.studyInstanceUid} else {})
    ensures forall s :: s in StudiesOf(done) ==> FirstFrameOf(done + [item], s) == FirstFrameOf(done, s)
    ensures item.item.SopImage? && item.item.frame.studyInstanceUid !in StudiesOf(done) ==>
              FirstFrameOf(done + [item], item.item.frame.studyInstanceUid) == item.item.frame
  {
    assert (done + [item])[..|done|] == done;
  }

  /** The records made so far also describe the items with one more appended. */
  lemma RecordsExtend(studies: map<string, StudyInfo>, done: seq<ClipboardItem>, item: ClipboardItem,
                      created: seq<PresentationState>,
                      next: Option<FrameRef -> int>, maxSeriesNumberOf: FrameRef -> int)
    requires forall s :: s in studies ==> StudyRecorded(studies[s], s, done, created, next, maxSeriesNumberOf)
    ensures forall s :: s in studies ==> StudyRecorded(studies[s], s, done + [item], created, next, maxSeriesNumberOf)
  {
    AppendItem(done, item);
  }

  /** A study no created presentation state belongs to has none counted. */
  lemma {:induction false} CountStudyAbsent(states: seq<PresentationState>, s: string)
    requires forall j :: 0 <= j < |states| ==> states[j].Created? && states[j].studyInstanceUid != s
    ensures CountStudy(states, s) == 0
  {
    if states != [] {
      CountStudyAbsent(states[..|states| - 1], s);
    }
  }

  lemma CountAppend(states: seq<PresentationState>, ps: PresentationState)
    ensures forall s :: CountStudy(states + [ps], s)
                        == CountStudy(states, s) + (if ps.Created? && ps.studyInstanceUid == s then 1 else 0)
  {
    assert (states + [ps])[..|states|] == states;
  }

  lemma FramesAppend(entries: seq<KeyImageEntry>, e: KeyImageEntry)
    ensures Frames(entries + [e]) == Frames(entries) + [e.frame]
  {
    assert (entries + [e])[..|entries|] == entries;
  }

  /**
   * What the loop of `CreateSopInstances` hands to the serialiser after the
   * items `items`: the key image entries, and the presentation states created
   * for them, in order.
   */
  function PlanOf(items: seq<ClipboardItem>, next: Option<FrameRef -> int>, maxSeriesNumberOf: FrameRef -> int)
    : (plan: (seq<KeyImageEntry>, seq<PresentationState>))
    ensures |plan.1| <= |plan.0| <= |items|
  {
    if items == [] then ([], [])
    else PlanStep(PlanOf(items[..|items| - 1], next, maxSeriesNumberOf), items, next, maxSeriesNumberOf)
  }

  /**
   * What the last of `items` adds to `plan`: a placeholder keeps its own
   * references; an unchanged DICOM image reuses its current presentation
   * state; any other image with a source SOP gets a new presentation state of
   * its study when one can be created for it, and none otherwise; other items
   * add nothing.
   */
  function PlanStep(plan: (seq<KeyImageEntry>, seq<PresentationState>), items: seq<ClipboardItem>,
                    next: Option<FrameRef -> int>, maxSeriesNumberOf: FrameRef -> int)
    : (plan': (seq<KeyImageEntry>, seq<PresentationState>))
    requires items != []
    ensures |plan.0| <= |plan'.0| <= |plan.0| + 1 && |plan.1| <= |plan'.1|
    ensures |plan'.1| - |plan.1| <= |plan'.0| - |plan.0|
  {
    var entries, created := plan.0, plan.1;
    var item := items[|items| - 1];
    match item.item
    case Placeholder(k, ps) => (entries + [KeyImageEntry(k, ps)], created)
    case SopImage(f, isDicom, current, supported) =>
      if !item.hasChanges && isDicom then (entries + [KeyImageEntry(f, current)], created)
      else if supported then
        var ps := NewPresentationState(items, f.studyInstanceUid, created, next, maxSeriesNumberOf);
        (entries + [KeyImageEntry(f, Some(ps))], created + [ps])
      else (entries + [KeyImageEntry(f, None)], created)
    case _ => (entries, created)
  }

  lemma PlanOfAppend(done: seq<ClipboardItem>, item: ClipboardItem,
                     next: Option<FrameRef -> int>, maxSeriesNumberOf: FrameRef -> int)
    ensures PlanOf(done + [item], next, maxSeriesNumberOf)
            == PlanStep(PlanOf(done, next, maxSeriesNumberOf), done + [item], next, maxSeriesNumberOf)
  {
    assert (done + [item])[..|done|] == done;
  }

  /** The presentation state created next for study `s`, after the states `created`. */
  function NewPresentationState(items: seq<ClipboardItem>, s: string, created: seq<PresentationState>,
                                next: Option<FrameRef -> int>, maxSeriesNumberOf: FrameRef -> int)
    : (ps: PresentationState)
    requires s in StudiesOf(items)
    ensures ps.Created? && ps.studyInstanceUid == s
  {
    Created(s, FirstSeriesNumber(next, maxSeriesNumberOf, FirstFrameOf(items, s)), 1 + CountStudy(created, s))
  }

  /** The plan has one entry per key image, in clipboard order. */
  lemma {:induction false} PlanOfFrames(items: seq<ClipboardItem>, next: Option<FrameRef -> int>,
                                        maxSeriesNumberOf: FrameRef -> int)
    ensures Frames(PlanOf(items, next, maxSeriesNumberOf).0) == SelectedFrames(items)
  {
    if items != [] {
      var done, item := items[..|items| - 1], items[|items| - 1];
      PlanOfFrames(done, next, maxSeriesNumberOf);
      assert done + [item] == items;
      PlanOfAppend(done, item, next, maxSeriesNumberOf);
      AppendItem(done, item);
      var entries, all := PlanOf(done, next, maxSeriesNumberOf).0, PlanOf(items, next, maxSeriesNumberOf).0;
      if |all| > |entries| {
        assert all == entries + [all[|entries|]];
        FramesAppend(entries, all[|entries|]);
      }
    }
  }

  /**
   * Every created presentation state belongs to a study with a source SOP,
   * carries the series number asked for that study's first image, and is
   * numbered one past the earlier states of its study.
   */
  ghost predicate NumberedFor(items: seq<ClipboardItem>, created: seq<PresentationState>,
                              next: Option<FrameRef -> int>, maxSeriesNumberOf: FrameRef -> int)
  {
    forall j :: 0 <= j < |created| ==>
      && created[j].Created?
      && created[j].studyInstanceUid in StudiesOf(items)
      && created[j].seriesNumber
         == FirstSeriesNumber(next, maxSeriesNumberOf, FirstFrameOf(items, created[j].studyInstanceUid))
      && created[j].instanceNumber == 1 + CountStudy(created[..j], created[j].studyInstanceUid)
  }

  /** The plan numbers its presentation states per study, whatever the study records. */
  lemma {:induction false} PlanOfNumbered(items: seq<ClipboardItem>, next: Option<FrameRef -> int>,
                                          maxSeriesNumberOf: FrameRef -> int)
    ensures NumberedFor(items, PlanOf(items, next, maxSeriesNumberOf).1, next, maxSeriesNumberOf)
  {
    if items != [] {
      var done, item := items[..|items| - 1], items[|items| - 1];
      PlanOfNumbered(done, next, maxSeriesNumberOf);
      AppendItem(done, item);
      assert done + [item] == items;
      PlanOfAppend(done, item, next, maxSeriesNumberOf);
      var created, all := PlanOf(done, next, maxSeriesNumberOf).1, PlanOf(items, next, maxSeriesNumberOf).1;
      assert all[..|created|] == created;
      forall j | 0 <= j < |all|
        ensures && all[j].Created?
                && all[j].studyInstanceUid in StudiesOf(items)
                && all[j].seriesNumber
                   == FirstSeriesNumber(next, maxSeriesNumberOf, FirstFrameOf(items, all[j].studyInstanceUid))
                && all[j].instanceNumber == 1 + CountStudy(all[..j], all[j].studyInstanceUid)
      {
        if j < |created| {
          assert all[j] == created[j] && all[..j] == created[..j];
        } else {
          assert item.item.SopImage? && (item.hasChanges || !item.item.isDicom) && item.item.supported;
          assert all == created + [NewPresentationState(items, item.item.frame.studyInstanceUid, created,
                                                        next, maxSeriesNumberOf)];
          assert all[..j] == created;
        }
      }
    }
  }

  /** The study records and the numbering objects they own. */
  ghost function StudyObjects(studies: map<string, StudyInfo>): set<object>
  {
    (set s | s in studies :: studies[s] as object)
    + (set s | s in studies && studies[s].defaultGetter != null :: studies[s].defaultGetter as object)
  }

  /** No two study records share a numbering object. */
  ghost predicate DistinctGetters(studies: map<string, StudyInfo>)
  {
    forall s, t ::
      (s in studies && t in studies && s != t && studies[s].defaultGetter != null) ==>
      studies[s].defaultGetter != studies[t].defaultGetter
  }

  /** The state of `CreateSopInstances` after the items `done`. */
  ghost predicate Planned(done: seq<ClipboardItem>, entries: seq<KeyImageEntry>, created: seq<PresentationState>,
                          studies: map<string, StudyInfo>,
                          next: Option<FrameRef -> int>, maxSeriesNumberOf: FrameRef -> int)
    reads StudyObjects(studies)
  {
    && (entries, created) == PlanOf(done, next, maxSeriesNumberOf)
    && studies.Keys == StudiesOf(done)
    && (forall s :: s in studies ==> StudyRecorded(studies[s], s, done, created, next, maxSeriesNumberOf))
    && DistinctGetters(studies)
    && CreatedNumbered(created, studies, next, maxSeriesNumberOf)
  }

  /** One pass of the `CreateSopInstances` loop, over the clipboard item `item`. */
  method PlanItem(items: seq<ClipboardItem>, i: nat, entries: seq<KeyImageEntry>,
                  created: seq<PresentationState>, studies: map<string, StudyInfo>,
                  next: Option<FrameRef -> int>, maxSeriesNumberOf: FrameRef -> int)
    returns (entries': seq<KeyImageEntry>, created': seq<PresentationState>, studies': map<string, StudyInfo>)
    requires i < |items|
    requires Planned(items[..i], entries, created, studies, next, maxSeriesNumberOf)
    modifies StudyObjects(studies)
    ensures Planned(items[..i + 1], entries', created', studies', next, maxSeriesNumberOf)
    ensures fresh(StudyObjects(studies') - StudyObjects(studies))
  {
    var done, item := items[..i], items[i];
    assert items[..i + 1] == done + [item];
    AppendItem(done, item);
    PlanOfAppend(done, item, next, maxSeriesNumberOf);
    RecordsExtend(studies, done, item, created, next, maxSeriesNumberOf);
    entries', created', studies' := entries, created, studies;
    match item.item {
      case Placeholder(k, ps) =>
        entries' := entries + [KeyImageEntry(k, ps)];
      case SopImage(f, isDicom, current, supported) =>
        entries', created', studies' :=
          PlanSopImage(done, item, entries, created, studies, next, maxSeriesNumberOf);
      case OtherImage =>
      case NotAnImage =>
    }
  }

  /** The study record an image with a source SOP is numbered by, made on the study's first image. */
  method RecordStudy(done: seq<ClipboardItem>, item: ClipboardItem, created: seq<PresentationState>,
                     studies: map<string, StudyInfo>,
                     next: Option<FrameRef -> int>, maxSeriesNumberOf: FrameRef -> int)
    returns (studies': map<string, StudyInfo>)
    requires item.item.SopImage?
    requires studies.Keys == StudiesOf(done)
    requires forall s :: s in studies ==> StudyRecorded(studies[s], s, done + [item], created, next, maxSeriesNumberOf)
    requires DistinctGetters(studies) && CreatedNumbered(created, studies, next, maxSeriesNumberOf)
    ensures studies'.Keys == StudiesOf(done + [item])
    ensures forall s :: s in studies' ==> StudyRecorded(studies'[s], s, done + [item], created, next, maxSeriesNumberOf)
    ensures DistinctGetters(studies') && CreatedNumbered(created, studies', next, maxSeriesNumberOf)
    ensures forall s :: s in studies ==> s in studies' && studies'[s] == studies[s]
    ensures fresh(StudyObjects(studies') - StudyObjects(studies))
  {
    if item.item.frame.studyInstanceUid in studies {
      AppendItem(done, item);
      return studies;
    }
    studies' := AddStudy(done, item, created, studies, next, maxSeriesNumberOf);
  }

  /** `RecordStudy` for a study met for the first time. */
  method AddStudy(done: seq<ClipboardItem>, item: ClipboardItem, created: seq<PresentationState>,
                  studies: map<string, StudyInfo>,
                  next: Option<FrameRef -> int>, maxSeriesNumberOf: FrameRef -> int)
    returns (studies': map<string, StudyInfo>)
    requires item.item.SopImage? && item.item.frame.studyInstanceUid !in studies
    requires studies.Keys == StudiesOf(done)
    requires forall s :: s in studies ==> StudyRecorded(studies[s], s, done + [item], created, next, maxSeriesNumberOf)
    requires DistinctGetters(studies) && CreatedNumbered(created, studies, next, maxSeriesNumberOf)
    ensures studies'.Keys == StudiesOf(done + [item])
    ensures forall s :: s in studies' ==> StudyRecorded(studies'[s], s, done + [item], created, next, maxSeriesNumberOf)
    ensures DistinctGetters(studies') && CreatedNumbered(created, studies', next, maxSeriesNumberOf)
    ensures forall s :: s in studies ==> s in studies' && studies'[s] == studies[s]
    ensures fresh(StudyObjects(studies') - StudyObjects(studies))
  {
    var s := item.item.frame.studyInstanceUid;
    var info := NewStudy(done, item, created, studies, next, maxSeriesNumberOf);
    StudiesGrow(done, item, created, studies, info, next, maxSeriesNumberOf);
    studies' := studies[s := info];
  }

  /** Adding the record of a new study keeps every property of the records. */
  lemma StudiesGrow(done: seq<ClipboardItem>, item: ClipboardItem, created: seq<PresentationState>,
                    studies: map<string, StudyInfo>, info: StudyInfo,
                    next: Option<FrameRef -> int>, maxSeriesNumberOf: FrameRef -> int)
    requires item.item.SopImage? && item.item.frame.studyInstanceUid !in studies
    requires studies.Keys == StudiesOf(done)
    requires DistinctGetters(studies) && CreatedNumbered(created, studies, next, maxSeriesNumberOf)
    requires info.defaultGetter != null ==> info.defaultGetter !in StudyObjects(studies)
    ensures var grown := studies[item.item.frame.studyInstanceUid := info];
            && grown.Keys == StudiesOf(done + [item])
            && DistinctGetters(grown) && CreatedNumbered(created, grown, next, maxSeriesNumberOf)
            && StudyObjects(grown) == StudyObjects(studies) + {info}
                                      + (if info.defaultGetter != null then {info.defaultGetter} else {})
  {
    AppendItem(done, item);
    var s := item.item.frame.studyInstanceUid;
    CreatedNumberedGrow(created, studies, s, info, next, maxSeriesNumberOf);
    var grown := studies[s := info];
    forall t, u | t in grown && u in grown && t != u && grown[t].defaultGetter != null
      ensures grown[t].defaultGetter != grown[u].defaultGetter
    {
      if t == s {
        assert grown[u].defaultGetter != null ==> grown[u].defaultGetter in StudyObjects(studies);
      } else if u == s {
        assert grown[t].defaultGetter in StudyObjects(studies);
      }
    }
  }

  /** The record of a study met for the first time, made from its first image. */
  method NewStudy(done: seq<ClipboardItem>, item: ClipboardItem, created: seq<PresentationState>,
                  studies: map<string, StudyInfo>,
                  next: Option<FrameRef -> int>, maxSeriesNumberOf: FrameRef -> int)
    returns (info: StudyInfo)
    requires item.item.SopImage? && item.item.frame.studyInstanceUid !in studies
    requires studies.Keys == StudiesOf(done)
    requires CreatedNumbered(created, studies, next, maxSeriesNumberOf)
    requires forall s :: s in studies ==> StudyRecorded(studies[s], s, done + [item], created, next, maxSeriesNumberOf)
    ensures fresh(info) && (info.defaultGetter != null ==> fresh(info.defaultGetter))
    ensures StudyRecorded(info, item.item.frame.studyInstanceUid, done + [item], created, next, maxSeriesNumberOf)
    ensures forall s :: s in studies ==> StudyRecorded(studies[s], s, done + [item], created, next, maxSeriesNumberOf)
  {
    AppendItem(done, item);
    CountStudyAbsent(created, item.item.frame.studyInstanceUid);
    info := new StudyInfo(item.item.frame, next, maxSeriesNumberOf);
  }

  /** The pass over an image with a source SOP. */
  method PlanSopImage(done: seq<ClipboardItem>, item: ClipboardItem, entries: seq<KeyImageEntry>,
                      created: seq<PresentationState>, studies: map<string, StudyInfo>,
                      next: Option<FrameRef -> int>, maxSeriesNumberOf: FrameRef -> int)
    returns (entries': seq<KeyImageEntry>, created': seq<PresentationState>, studies': map<string, StudyInfo>)
    requires item.item.SopImage?
    requires (entries, created) == PlanOf(done, next, maxSeriesNumberOf) && studies.Keys == StudiesOf(done)
    requires forall s :: s in studies ==> StudyRecorded(studies[s], s, done + [item], created, next, maxSeriesNumberOf)
    requires DistinctGetters(studies) && CreatedNumbered(created, studies, next, maxSeriesNumberOf)
    modifies StudyObjects(studies)
    ensures Planned(done + [item], entries', created', studies', next, maxSeriesNumberOf)
    ensures fresh(StudyObjects(studies') - StudyObjects(studies))
    ensures !item.hasChanges && item.item.isDicom ==>
              entries' == entries + [KeyImageEntry(item.item.frame, item.item.current)] && created' == created
    ensures (item.hasChanges || !item.item.isDicom) && item.item.supported ==>
              var ps := NewPresentationState(done + [item], item.item.frame.studyInstanceUid, created,
                                             next, maxSeriesNumberOf);
              entries' == entries + [KeyImageEntry(item.item.frame, Some(ps))] && created' == created + [ps]
    ensures (item.hasChanges || !item.item.isDicom) && !item.item.supported ==>
              entries' == entries + [KeyImageEntry(item.item.frame, None)] && created' == created
  {
    var f := item.item.frame;
    var s := f.studyInstanceUid;
    studies' := RecordStudy(done, item, created, studies, next, maxSeriesNumberOf);
    AppendItem(done, item);
    PlanOfAppend(done, item, next, maxSeriesNumberOf);
    if !item.hasChanges && item.item.isDicom {
      entries' := entries + [KeyImageEntry(f, item.item.current)];
      created' := created;
    } else if item.item.supported {
      entries', created' := PlanPresentationState(done, item, entries, created, studies', next, maxSeriesNumberOf);
    } else {
      entries' := entries + [KeyImageEntry(f, None)];
      created' := created;
    }
  }

  /** A presentation state of another study leaves a study's record as it was. */
  lemma OtherStudyRecorded(info: StudyInfo, s: string, done: seq<ClipboardItem>, created: seq<PresentationState>,
                           ps: PresentationState, next: Option<FrameRef -> int>, maxSeriesNumberOf: FrameRef -> int)
    requires StudyRecorded(info, s, done, created, next, maxSeriesNumberOf)
    requires ps.Created? && ps.studyInstanceUid != s
    ensures StudyRecorded(info, s, done, created + [ps], next, maxSeriesNumberOf)
  {
    CountAppend(created, ps);
  }

  /** The pass over a changed (or non-DICOM) image for which a presentation state is created. */
  method PlanPresentationState(done: seq<ClipboardItem>, item: ClipboardItem, entries: seq<KeyImageEntry>,
                               created: seq<PresentationState>, studies: map<string, StudyInfo>,
                               next: Option<FrameRef -> int>, maxSeriesNumberOf: FrameRef -> int)
    returns (entries': seq<KeyImageEntry>, created': seq<PresentationState>)
    requires item.item.SopImage? && item.item.frame.studyInstanceUid in studies
    requires (item.hasChanges || !item.item.isDicom) && item.item.supported
    requires (entries, created) == PlanOf(done, next, maxSeriesNumberOf) && studies.Keys == StudiesOf(done + [item])
    requires forall s :: s in studies ==> StudyRecorded(studies[s], s, done + [item], created, next, maxSeriesNumberOf)
    requires DistinctGetters(studies) && CreatedNumbered(created, studies, next, maxSeriesNumberOf)
    modifies StudyObjects(studies)
    ensures Planned(done + [item], entries', created', studies, next, maxSeriesNumberOf)
    ensures var ps := NewPresentationState(done + [item], item.item.frame.studyInstanceUid, created,
                                           next, maxSeriesNumberOf);
            entries' == entries + [KeyImageEntry(item.item.frame, Some(ps))] && created' == created + [ps]
  {
    var f := item.item.frame;
    var s := f.studyInstanceUid;
    var ps := NumberInStudy(done + [item], s, created, studies, next, maxSeriesNumberOf);
    CreatedNumberedAppend(created, ps, studies, next, maxSeriesNumberOf);
    created' := created + [ps];
    forall t | t in studies && t != s
      ensures StudyRecorded(studies[t], t, done + [item], created', next, maxSeriesNumberOf)
    {
      OtherStudyRecorded(studies[t], t, done + [item], created, ps, next, maxSeriesNumberOf);
    }
    AppendItem(done, item);
    PlanOfAppend(done, item, next, maxSeriesNumberOf);
    entries' := entries + [KeyImageEntry(f, Some(ps))];
  }

  /**
   * Numbers a new presentation state of study `s` through its record; the
   * records of the other studies are left as they were.
   */
  method NumberInStudy(done: seq<ClipboardItem>, s: string, created: seq<PresentationState>,
                       studies: map<string, StudyInfo>,
                       next: Option<FrameRef -> int>, maxSeriesNumberOf: FrameRef -> int)
    returns (ps: PresentationState)
    requires s in studies
    requires forall t :: t in studies ==> StudyRecorded(studies[t], t, done, created, next, maxSeriesNumberOf)
    requires DistinctGetters(studies)
    modifies StudyObjects(studies)
    ensures s in StudiesOf(done) && ps == NewPresentationState(done, s, created, next, maxSeriesNumberOf)
    ensures StudyRecorded(studies[s], s, done, created + [ps], next, maxSeriesNumberOf)
    ensures forall t :: t in studies && t != s ==> StudyRecorded(studies[t], t, done, created, next, maxSeriesNumberOf)
  {
    var info := studies[s];
    assert info in StudyObjects(studies);
    assert info.defaultGetter != null ==> info.defaultGetter in StudyObjects(studies);
    ps := info.NumberPresentationState();
    CountAppend(created, ps);
    forall t | t in studies && t != s
      ensures StudyRecorded(studies[t], t, done, created, next, maxSeriesNumberOf)
    {
      assert studies[t] != info;
      assert studies[t].defaultGetter == null || studies[t].defaultGetter != info.defaultGetter;
    }
  }

  /** The loop of `CreateSopInstances` over the clipboard items, in order. */
  method PlanItems(items: seq<ClipboardItem>, next: Option<FrameRef -> int>, maxSeriesNumberOf: FrameRef -> int)
    returns (entries: seq<KeyImageEntry>, created: seq<PresentationState>, studies: map<string, StudyInfo>)
    ensures Planned(items, entries, created, studies, next, maxSeriesNumberOf)
    ensures forall o :: o in StudyObjects(studies) ==> fresh(o)
  {
    entries, created, studies := [], [], map[];
    var i := 0;
    while i < |items|
      invariant 0 <= i <= |items|
      invariant Planned(items[..i], entries, created, studies, next, maxSeriesNumberOf)
      invariant forall o :: o in StudyObjects(studies) ==> fresh(o)
    {
      entries, created, studies := PlanItem(items, i, entries, created, studies, next, maxSeriesNumberOf);
      i := i + 1;
    }
    assert items[..i] == items;
  }

  /** The key-image document being edited. */
  class KeyImageInformation {
    var documentInstanceUid: string
    var documentTitle: DocumentTitle
    var author: string
    var description: string
    var seriesDescription: string
    var clipboardItems: seq<ClipboardItem>
    /** Whether the document listens to changes of its clipboard item list. */
    var subscribed: bool
    var hasChanges: bool

    /** A new, empty selection by `userName`. */
    constructor New(userName: string, defaultSeriesDescription: string)
      ensures clipboardItems == [] && subscribed && !hasChanges
      ensures documentInstanceUid == "" && description == "" && documentTitle == OfInterest
      ensures author == userName
      ensures seriesDescription == NewSeriesDescription(defaultSeriesDescription, userName)
    {
      clipboardItems := [];
      subscribed := true;
      hasChanges := false;
      documentInstanceUid := "";
      description := "";
      documentTitle := OfInterest;
      author := userName;
      seriesDescription := defaultSeriesDescription;
      new;
      if author != "" {
        seriesDescription := seriesDescription + " (" + author + ")";
      }
    }

    /** An existing document: its images are listed before the list is subscribed to. */
    constructor FromDocument(doc: KeyObjectDocument)
      requires doc.sopClassUid == KeyObjectSelectionDocumentStorageUid
      ensures clipboardItems == seq(|doc.images|, i requires 0 <= i < |doc.images| => ClipboardItem(doc.images[i], false))
      ensures subscribed && !hasChanges
      ensures documentInstanceUid == doc.sopInstanceUid
      ensures author == (if doc.author.Some? then doc.author.value else "")
      ensures description == (if doc.description.Some? then doc.description.value else "")
      ensures documentTitle == (if doc.title.Some? then doc.title.value else OfInterest)
      ensures seriesDescription == doc.seriesDescription
    {
      clipboardItems := [];
      subscribed := false;
      hasChanges := false;
      documentInstanceUid := doc.sopInstanceUid;
      author := if doc.author.Some? then doc.author.value else "";
      description := if doc.description.Some? then doc.description.value else "";
      documentTitle := if doc.title.Some? then doc.title.value else OfInterest;
      seriesDescription := doc.seriesDescription;
      new;
      var i := 0;
      while i < |doc.images|
        invariant 0 <= i <= |doc.images|
        invariant clipboardItems == seq(i, j requires 0 <= j < i => ClipboardItem(doc.images[j], false))
        invariant !subscribed && !hasChanges
        invariant documentInstanceUid == doc.sopInstanceUid && seriesDescription == doc.seriesDescription
        invariant author == (if doc.author.Some? then doc.author.value else "")
        invariant description == (if doc.description.Some? then doc.description.value else "")
        invariant documentTitle == (if doc.title.Some? then doc.title.value else OfInterest)
      {
        AddItem(ClipboardItem(doc.images[i], false));
        i := i + 1;
      }
      subscribed := true;
    }

    /** Opens a stored document, refusing anything but a key object selection. */
    static method Load(doc: KeyObjectDocument) returns (r: Result<KeyImageInformation, LoadError>)
      ensures doc.sopClassUid != KeyObjectSelectionDocumentStorageUid ==> r == Failure(NotKeyObjectSelection)
      ensures doc.sopClassUid == KeyObjectSelectionDocumentStorageUid ==>
                r.Success? && fresh(r.value) && !r.value.hasChanges && r.value.subscribed
                && |r.value.clipboardItems| == |doc.images|
                && r.value.clipboardItems
                   == seq(|doc.images|, i requires 0 <= i < |doc.images| => ClipboardItem(doc.images[i], false))
                && r.value.documentInstanceUid == doc.sopInstanceUid
                && r.value.author == (if doc.author.Some? then doc.author.value else "")
                && r.value.description == (if doc.description.Some? then doc.description.value else "")
                && r.value.documentTitle == (if doc.title.Some? then doc.title.value else OfInterest)
                && r.value.seriesDescription == doc.seriesDescription
    {
      if doc.sopClassUid != KeyObjectSelectionDocumentStorageUid {
        return Failure(NotKeyObjectSelection);
      }
      var k := new KeyImageInformation.FromDocument(doc);
      r := Success(k);
    }

    method SetDocumentTitle(value: DocumentTitle)
      modifies this`documentTitle, this`hasChanges
      ensures documentTitle == value
      ensures hasChanges == (old(hasChanges) || value != old(documentTitle))
    {
      if documentTitle == value {
        return;
      }
      documentTitle := value;
      FlagChanges();
    }

    method SetAuthor(value: string)
      modifies this`author, this`hasChanges
      ensures author == value
      ensures hasChanges == (old(hasChanges) || value != old(author))
    {
      if author == value {
        return;
      }
      author := value;
      FlagChanges();
    }

    method SetDescription(value: string)
      modifies this`description, this`hasChanges
      ensures description == value
      ensures hasChanges == (old(hasChanges) || value != old(description))
    {
      if description == value {
        return;
      }
      description := value;
      FlagChanges();
    }

    method SetSeriesDescription(value: string)
      modifies this`seriesDescription, this`hasChanges
      ensures seriesDescription == value
      ensures hasChanges == (old(hasChanges) || value != old(seriesDescription))
    {
      if seriesDescription == value {
        return;
      }
      seriesDescription := value;
      FlagChanges();
    }

    method FlagChanges()
      modifies this`hasChanges
      ensures hasChanges
    {
      hasChanges := true;
    }

    /** The list-changed handler, run only while the document is subscribed. */
    method ClipboardItemsChanged()
      modifies this`hasChanges
      ensures hasChanges == (old(hasChanges) || subscribed)
    {
      if subscribed {
        FlagChanges();
      }
    }

    method AddItem(item: ClipboardItem)
      modifies this`clipboardItems, this`hasChanges
      ensures clipboardItems == old(clipboardItems) + [item]
      ensures hasChanges == (old(hasChanges) || subscribed)
    {
      clipboardItems := clipboardItems + [item];
      ClipboardItemsChanged();
    }

    method RemoveItemAt(index: nat)
      requires index < |clipboardItems|
      modifies this`clipboardItems, this`hasChanges
      ensures clipboardItems == old(clipboardItems[..index] + clipboardItems[index + 1..])
      ensures hasChanges == (old(hasChanges) || subscribed)
    {
      clipboardItems := clipboardItems[..index] + clipboardItems[index + 1..];
      ClipboardItemsChanged();
    }

    /** Clearing the list raises a list-changed notification even when it was already empty. */
    method ClearItems()
      modifies this`clipboardItems, this`hasChanges
      ensures clipboardItems == []
      ensures hasChanges == (old(hasChanges) || subscribed)
    {
      clipboardItems := [];
      ClipboardItemsChanged();
    }

    /** Disposes every item and clears the list, which itself counts as a change. */
    method Dispose() returns (ghost disposed: seq<ClipboardItem>)
      modifies this`clipboardItems, this`hasChanges
      ensures disposed == old(clipboardItems) && clipboardItems == []
      ensures hasChanges == (old(hasChanges) || subscribed)
    {
      disposed := clipboardItems;
      ClearItems();
    }

    /**
     * Plans the SOP instances to create: nothing when there is no change or no
     * item; otherwise one entry per key image in clipboard order, one study
     * record per study with a source SOP (made from its first image), and a new
     * presentation state for each changed or non-DICOM supported image,
     * carrying its study's presentation series number and the next instance
     * number of that study.
     */
    method CreateSopInstances(nextSeriesNumber: Option<FrameRef -> int>, maxSeriesNumberOf: FrameRef -> int)
      returns (r: SopInstancePlan)
      ensures !hasChanges || clipboardItems == [] ==> r == NothingToSave
      ensures hasChanges && clipboardItems != [] ==>
                && r.Plan?
                && (r.entries, r.created) == PlanOf(clipboardItems, nextSeriesNumber, maxSeriesNumberOf)
                && Frames(r.entries) == SelectedFrames(clipboardItems)
                && r.studies.Keys == StudiesOf(clipboardItems)
                && (forall s :: s in r.studies ==>
                      && fresh(r.studies[s])
                      && StudyRecorded(r.studies[s], s, clipboardItems, r.created,
                                       nextSeriesNumber, maxSeriesNumberOf))
                && CreatedNumbered(r.created, r.studies, nextSeriesNumber, maxSeriesNumberOf)
    {
      if !hasChanges || clipboardItems == [] {
        return NothingToSave;
      }
      var entries, created, studyIndex := PlanItems(clipboardItems, nextSeriesNumber, maxSeriesNumberOf);
      PlanOfFrames(clipboardItems, nextSeriesNumber, maxSeriesNumberOf);
      forall s | s in studyIndex
        ensures fresh(studyIndex[s])
      {
        assert studyIndex[s] in StudyObjects(studyIndex);
      }
      r := Plan(entries, created, studyIndex);
    }
  }
}

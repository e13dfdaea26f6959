/**
 * The MPR volume cache key (`VolumeCache.CacheKey`).
 *
 * The key is meant to be an MD5 digest of text written line by line: the
 * patient id, the patient's name, the study instance UID and the series
 * instance UID of the first frame's parent image SOP, then one line
 * `<SOP instance UID>:<frame number>` per frame, in order. An empty frame
 * list writes nothing. As written, the digest is taken before the writer is
 * flushed, so it covers only the whole buffers before the last character of
 * that text (`FlushedText`).
 *
 * MD5 itself is a parameter `digest` of every key function: the model never
 * relies on how it computes, only (where stated) on it being injective.
 */
module CacheKeys {

  /** The fields of one source frame that the key reads. */
  datatype Frame = Frame(
    patientId: string,
    patientsName: string,
    studyInstanceUid: string,
    seriesInstanceUid: string,
    sopInstanceUid: string,
    frameNumber: nat)

  /** The 16-byte MD5 digest, wrapped in a Guid by the source. */
  type Digest = seq<bv8>

  datatype CacheKey = CacheKey(hash: Digest)

  /** What `StreamWriter.WriteLine` appends after each line. */
  const NewLine: string := "\r\n"

  /** Characters a `StreamWriter` buffers before it writes them to its stream. */
  const WriterBufferSize: nat := 1024

  function DigitChar(d: nat): (c: char)
    requires d < 10
    ensures '0' <= c <= '9'
  {
    (48 + d) as char
  }

  /** The decimal text `{1}` formats a frame number as. */
  function Decimal(n: nat): (s: string)
    ensures |s| >= 1
    ensures n >= 10 ==> |s| >= 2
    ensures forall i :: 0 <= i < |s| ==> '0' <= s[i] <= '9'
  {
    if n < 10 then [DigitChar(n)] else Decimal(n / 10) + [DigitChar(n % 10)]
  }

  /** Distinct frame numbers are written as distinct text. */
  lemma {:induction false} DecimalInjective(m: nat, n: nat)
    requires Decimal(m) == Decimal(n)
    ensures m == n
  {
    if m >= 10 && n >= 10 {
      var s := Decimal(m);
      assert s[..|s| - 1] == Decimal(m / 10);
      assert Decimal(n)[..|s| - 1] == Decimal(n / 10);
      DecimalInjective(m / 10, n / 10);
      assert DigitChar(m % 10) == s[|s| - 1] == DigitChar(n % 10);
    }
  }

  function HeaderLines(first: Frame): seq<string>
  {
    [first.patientId, first.patientsName, first.studyInstanceUid, first.seriesInstanceUid]
  }

  /** The line `"{0}:{1}"` written for one frame. */
  function FrameLine(f: Frame): string
  {
    f.sopInstanceUid + ":" + Decimal(f.frameNumber)
  }

  function FrameLines(frames: seq<Frame>): (lines: seq<string>)
    ensures |lines| == |frames|
    ensures forall i :: 0 <= i < |frames| ==> lines[i] == FrameLine(frames[i])
  {
    seq(|frames|, i requires 0 <= i < |frames| => FrameLine(frames[i]))
  }

  /** The lines the key constructor writes, in order. */
  function KeyLines(frames: seq<Frame>): (lines: seq<string>)
    ensures frames == [] <==> lines == []
    ensures frames != [] ==> |lines| == 4 + |frames|
  {
    if frames == [] then [] else HeaderLines(frames[0]) + FrameLines(frames)
  }

  /** The text a sequence of `WriteLine` calls produces. */
  function WriteLines(lines: seq<string>): (text: string)
    ensures lines != [] ==> |text| >= |lines[0]| + |NewLine|
  {
    if lines == [] then "" else lines[0] + NewLine + WriteLines(lines[1..])
  }

  function KeyText(frames: seq<Frame>): string
  {
    WriteLines(KeyLines(frames))
  }

  /** The key as intended: the digest of all the text written. */
  function Key(frames: seq<Frame>, digest: string -> Digest): (k: CacheKey)
    ensures frames == [] ==> k == CacheKey(digest(""))
  {
    CacheKey(digest(KeyText(frames)))
  }

  /**
   * The text that reaches the memory stream when the writer is not flushed.
   * The writer passes a full buffer on only when the next character arrives,
   * so the whole buffers before the last character reach the stream and the
   * last buffer, full or not, stays in the writer.
   */
  function FlushedText(text: string): (r: string)
    ensures r <= text && |r| % WriterBufferSize == 0
    ensures text == [] ==> r == []
    ensures text != [] ==> 0 < |text| - |r| <= WriterBufferSize
  {
    if text == [] then [] else text[..(|text| - 1) / WriterBufferSize * WriterBufferSize]
  }

  /** The key as written: the stream is hashed before the writer is flushed. */
  function AsWrittenKey(frames: seq<Frame>, digest: string -> Digest): CacheKey
  {
    CacheKey(digest(FlushedText(KeyText(frames))))
  }

  /** Two frame lists carry the same identity fields, in the same order. */
  ghost predicate SameIdentity(a: seq<Frame>, b: seq<Frame>)
  {
    && |a| == |b|
    && (a != [] ==> HeaderLines(a[0]) == HeaderLines(b[0]))
    && forall i :: 0 <= i < |a| ==>
         a[i].sopInstanceUid == b[i].sopInstanceUid && a[i].frameNumber == b[i].frameNumber
  }

  ghost predicate NoNewLine(s: string)
  {
    forall i :: 0 <= i < |s| ==> s[i] != '\n'
  }

  /**
   * DICOM identifiers as they occur: no line breaks in the header fields of the
   * first frame, and no line break or colon in any SOP instance UID.
   */
  ghost predicate WellFormed(frames: seq<Frame>)
  {
    && (frames != [] ==> forall line :: line in HeaderLines(frames[0]) ==> NoNewLine(line))
    && forall i, j :: 0 <= i < |frames| && 0 <= j < |frames[i].sopInstanceUid| ==>
         frames[i].sopInstanceUid[j] != '\n' && frames[i].sopInstanceUid[j] != ':'
  }

  ghost predicate Injective(digest: string -> Digest)
  {
    forall s, t :: digest(s) == digest(t) ==> s == t
  }

  /** The key reads nothing but the identity fields: equal identities give equal keys. */
  lemma SameIdentitySameKey(a: seq<Frame>, b: seq<Frame>, digest: string -> Digest)
    requires SameIdentity(a, b)
    ensures KeyLines(a) == KeyLines(b)
    ensures Key(a, digest) == Key(b, digest)
    ensures AsWrittenKey(a, digest) == AsWrittenKey(b, digest)
  {
    assert FrameLines(a) == FrameLines(b);
  }

  /** Text written line by line can be split back into its lines. */
  lemma {:induction false} WriteLinesInjective(a: seq<string>, b: seq<string>)
    requires forall line :: line in a ==> NoNewLine(line)
    requires forall line :: line in b ==> NoNewLine(line)
    requires WriteLines(a) == WriteLines(b)
    ensures a == b
  {
    if a != [] && b != [] {
      var t := WriteLines(a);
      var p, q := |a[0]|, |b[0]|;
      assert t[p + 1] == '\n' && t[q + 1] == '\n';
      assert NoNewLine(a[0]) && NoNewLine(b[0]);
      if p != q {
        assert false;
      }
      assert a[0] == t[..p] == b[0];
      assert WriteLines(a[1..]) == t[p + 2..] == WriteLines(b[1..]);
      WriteLinesInjective(a[1..], b[1..]);
    }
  }

  /** A frame line determines the SOP instance UID and the frame number it was written from. */
  lemma FrameLineInjective(f: Frame, g: Frame)
    requires forall j :: 0 <= j < |f.sopInstanceUid| ==> f.sopInstanceUid[j] != ':'
    requires forall j :: 0 <= j < |g.sopInstanceUid| ==> g.sopInstanceUid[j] != ':'
    requires FrameLine(f) == FrameLine(g)
    ensures f.sopInstanceUid == g.sopInstanceUid && f.frameNumber == g.frameNumber
  {
    var t := FrameLine(f);
    var p, q := |f.sopInstanceUid|, |g.sopInstanceUid|;
    assert t[p] == ':' && t[q] == ':';
    if p != q {
      assert false;
    }
    assert f.sopInstanceUid == t[..p] == g.sopInstanceUid;
    assert Decimal(f.frameNumber) == t[p + 1..] == Decimal(g.frameNumber);
    DecimalInjective(f.frameNumber, g.frameNumber);
  }

  lemma KeyLinesHaveNoNewLine(frames: seq<Frame>)
    requires WellFormed(frames)
    ensures forall line :: line in KeyLines(frames) ==> NoNewLine(line)
  {
    if frames != [] {
      var lines := FrameLines(frames);
      forall i | 0 <= i < |frames|
        ensures NoNewLine(lines[i])
      {
        FrameLineHasNoNewLine(frames[i]);
      }
      forall line | line in KeyLines(frames)
        ensures NoNewLine(line)
      {
        if line !in HeaderLines(frames[0]) {
          var i :| 0 <= i < |lines| && line == lines[i];
        }
      }
    }
  }

  /** A frame line breaks no line: the UID has no line break and the rest is ':' and digits. */
  lemma FrameLineHasNoNewLine(f: Frame)
    requires forall j :: 0 <= j < |f.sopInstanceUid| ==> f.sopInstanceUid[j] != '\n'
    ensures NoNewLine(FrameLine(f))
  {
    var uid, digits := f.sopInstanceUid, Decimal(f.frameNumber);
    var line := FrameLine(f);
    forall j | 0 <= j < |line|
      ensures line[j] != '\n'
    {
      if j < |uid| {
        assert line[j] == uid[j];
      } else if j > |uid| {
        assert line[j] == digits[j - |uid| - 1];
      }
    }
  }

  /**
   * With a collision-free digest, the intended key identifies the frame list:
   * two lists get the same key exactly when they carry the same identity
   * fields in the same order.
   */
  lemma KeyIdentifiesFrames(a: seq<Frame>, b: seq<Frame>, digest: string -> Digest)
    requires Injective(digest)
    requires WellFormed(a) && WellFormed(b)
    ensures Key(a, digest) == Key(b, digest) <==> SameIdentity(a, b)
  {
    if SameIdentity(a, b) {
      SameIdentitySameKey(a, b, digest);
    }
    if Key(a, digest) == Key(b, digest) {
      KeyLinesHaveNoNewLine(a);
      KeyLinesHaveNoNewLine(b);
      WriteLinesInjective(KeyLines(a), KeyLines(b));
      if a != [] {
        assert HeaderLines(a[0]) == KeyLines(a)[..4] == KeyLines(b)[..4] == HeaderLines(b[0]);
        forall i | 0 <= i < |a|
          ensures a[i].sopInstanceUid == b[i].sopInstanceUid && a[i].frameNumber == b[i].frameNumber
        {
          assert FrameLine(a[i]) == KeyLines(a)[4 + i] == KeyLines(b)[4 + i] == FrameLine(b[i]);
          FrameLineInjective(a[i], b[i]);
        }
      }
    }
  }

  /** As written, every frame list whose text fits in one writer buffer gets the empty list's key. */
  lemma AsWrittenShortTextsCollide(frames: seq<Frame>, digest: string -> Digest)
    requires |KeyText(frames)| <= WriterBufferSize
    ensures AsWrittenKey(frames, digest) == AsWrittenKey([], digest) == CacheKey(digest(""))
  {
  }

  /** A text that exactly fills the writer's buffers keeps its last buffer out of the stream. */
  lemma LastFullBufferStaysInWriter(text: string)
    requires text != [] && |text| % WriterBufferSize == 0
    ensures |FlushedText(text)| == |text| - WriterBufferSize
  {
  }

  const FrameA := Frame("P1", "DOE^JANE", "1.2.3", "1.2.3.4", "1.2.3.4.1", 1)
  const FrameB := Frame("P1", "DOE^JANE", "1.2.3", "1.2.3.4", "1.2.3.4.2", 1)

  /** Two one-frame lists that differ in their SOP instance UID share the as-written key. */
  lemma AsWrittenKeyCollision(digest: string -> Digest)
    ensures !SameIdentity([FrameA], [FrameB])
    ensures AsWrittenKey([FrameA], digest) == AsWrittenKey([FrameB], digest)
  {
    assert [FrameA][0].sopInstanceUid != [FrameB][0].sopInstanceUid;
    KeyTextLength([FrameA]);
    KeyTextLength([FrameB]);
    AsWrittenShortTextsCollide([FrameA], digest);
    AsWrittenShortTextsCollide([FrameB], digest);
  }

  /** The intended key tells the same two lists apart. */
  lemma IntendedKeySeparates(digest: string -> Digest)
    requires Injective(digest)
    ensures Key([FrameA], digest) != Key([FrameB], digest)
  {
    assert !SameIdentity([FrameA], [FrameB]) by {
      assert [FrameA][0].sopInstanceUid != [FrameB][0].sopInstanceUid;
    }
    OneFrameWellFormed(FrameA);
    OneFrameWellFormed(FrameB);
    KeyIdentifiesFrames([FrameA], [FrameB], digest);
  }

  lemma OneFrameWellFormed(f: Frame)
    requires forall line :: line in HeaderLines(f) ==> NoNewLine(line)
    requires forall j :: 0 <= j < |f.sopInstanceUid| ==> f.sopInstanceUid[j] != '\n' && f.sopInstanceUid[j] != ':'
    ensures WellFormed([f])
  {
  }

  function TotalLength(lines: seq<string>): nat
  {
    if lines == [] then 0 else |lines[0]| + |NewLine| + TotalLength(lines[1..])
  }

  lemma {:induction false} WriteLinesLength(lines: seq<string>)
    ensures |WriteLines(lines)| == TotalLength(lines)
  {
    if lines != [] {
      WriteLinesLength(lines[1..]);
    }
  }

  lemma {:induction false} TotalLengthBound(lines: seq<string>, m: nat)
    requires forall line :: line in lines ==> |line| <= m
    ensures TotalLength(lines) <= |lines| * (m + |NewLine|)
  {
    if lines != [] {
      var rest := lines[1..];
      assert forall line :: line in rest ==> line in lines;
      TotalLengthBound(rest, m);
      assert TotalLength(lines) == |lines[0]| + |NewLine| + TotalLength(rest);
      MultiplySucc(|rest|, m + |NewLine|);
    }
  }

  lemma MultiplySucc(n: nat, k: nat)
    ensures (n + 1) * k == n * k + k
  {
  }

  lemma KeyTextLength(frames: seq<Frame>)
    requires frames == [FrameA] || frames == [FrameB]
    ensures |KeyText(frames)| < WriterBufferSize
  {
    var lines := KeyLines(frames);
    WriteLinesLength(lines);
    assert |Decimal(1)| == 1;
    TotalLengthBound(lines, 11);
  }
}

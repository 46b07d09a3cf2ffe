/**
 * The two byte loops of ipqam_pid_parser: the scan of a program association section for
 * the PMT PID of a program, and the scan of a program map section for its PCR, video
 * and audio PIDs.
 */
module SectionParser {
  import opened Bytes
  import opened StreamChoice

  /** TS_PSI_GET_SECTION_LENGTH */
  function SectionLength(s: seq<byte>): nat
    requires 3 <= |s|
  {
    Low12(Read16(s, 1))
  }

  function MessageLength(s: seq<byte>): nat
    requires 3 <= |s|
  {
    SectionLength(s) + 3
  }

  /** The whole section is in the buffer, as the 4096-byte message size is there to assure. */
  predicate WholeSection(s: seq<byte>) { 3 <= |s| && MessageLength(s) <= |s| }

  /** Integer division of C: towards zero. */
  function TruncDiv(a: int, b: int): int
    requires 0 < b
  {
    if 0 <= a then a / b else -(-a / b)
  }

  /** An int operand of a comparison with an unsigned one. */
  function ToUnsigned(x: int): nat
    requires -0x8000_0000 <= x < 0x8000_0000
  {
    if x < 0 then x + 0x1_0000_0000 else x
  }

  // ----- Program association section -----

  datatype Candidate = Candidate(programNumber: word, pid: Pid)

  /** Upper bound of `programNum`; negative or zero for sections of fewer than 13 bytes. */
  function ProgramBound(s: seq<byte>): int
    requires 3 <= |s|
  {
    TruncDiv(SectionLength(s) - 9, 4)
  }

  /** The entries scanned are exactly those that lie after the 8-byte header and before the 4-byte CRC. */
  lemma PatReadsBetweenHeaderAndCrc(s: seq<byte>, programNum: nat)
    requires 3 <= |s|
    ensures programNum < ProgramBound(s) <==> 8 + programNum * 4 + 4 <= MessageLength(s) - 4
  {
  }

  function CandidateAt(s: seq<byte>, programNum: nat): Candidate
    requires WholeSection(s) && programNum < ProgramBound(s)
  {
    var byteOffset := 8 + programNum * 4;
    Candidate(Read16(s, byteOffset), Low13(Read16(s, byteOffset + 2)))
  }

  function Candidates(s: seq<byte>): (cs: seq<Candidate>)
    requires WholeSection(s)
  {
    seq(if ProgramBound(s) < 0 then 0 else ProgramBound(s),
        i requires 0 <= i < ProgramBound(s) => CandidateAt(s, i))
  }

  /** PID of the first candidate for the program, or -1. */
  ghost predicate IsFirstMatch(cs: seq<Candidate>, program: word, pid: int) {
    if exists c :: c in cs && c.programNumber == program then
      exists i: nat :: i < |cs| && cs[i].programNumber == program && pid == cs[i].pid
                       && forall j: nat :: j < i ==> cs[j].programNumber != program
    else pid == -1
  }

  function FirstMatch(cs: seq<Candidate>, program: word): (pid: int)
    ensures IsFirstMatch(cs, program, pid)
    ensures -1 <= pid < 0x2000
  {
    if cs == [] then -1
    else if cs[0].programNumber == program then cs[0].pid
    else
      var pid := FirstMatch(cs[1..], program);
      assert cs == [cs[0]] + cs[1..];
      pid
  }

  lemma FirstMatchUnique(cs: seq<Candidate>, program: word, p: int, q: int)
    requires IsFirstMatch(cs, program, p) && IsFirstMatch(cs, program, q)
    ensures p == q
  {
    if exists c :: c in cs && c.programNumber == program {
      var i: nat :| i < |cs| && cs[i].programNumber == program && p == cs[i].pid
                    && forall j: nat :: j < i ==> cs[j].programNumber != program;
      var i': nat :| i' < |cs| && cs[i'].programNumber == program && q == cs[i'].pid
                     && forall j: nat :: j < i' ==> cs[j].programNumber != program;
      assert !(i < i') && !(i' < i);
    }
  }

  method FindPmtPid(buffer: seq<byte>, pnID: word) returns (vodPmtPid: int)
    requires WholeSection(buffer)
    ensures vodPmtPid == FirstMatch(Candidates(buffer), pnID)
  {
    vodPmtPid := -1;
    ghost var cs := Candidates(buffer);
    var programNum := 0;
    while programNum < ProgramBound(buffer)
      invariant 0 <= programNum <= |cs|
      invariant vodPmtPid == -1
      invariant forall j: nat :: j < programNum ==> cs[j].programNumber != pnID
    {
      var byteOffset := 8 + programNum * 4;
      var pmtProgramNumber := Read16(buffer, byteOffset);
      var pmtPid := Low13(Read16(buffer, byteOffset + 2));
      assert cs[programNum] == Candidate(pmtProgramNumber, pmtPid);
      if pmtProgramNumber == pnID {
        vodPmtPid := pmtPid;
        break;
      }
      programNum := programNum + 1;
    }
    FirstMatchUnique(cs, pnID, vodPmtPid, FirstMatch(cs, pnID));
  }

  /** Bytes behind the section in its buffer have no effect, whatever the section holds. */
  lemma PatTrailingIgnored(b: seq<byte>, s: seq<byte>)
    requires WholeSection(b) && b <= s
    ensures WholeSection(s) && MessageLength(s) == MessageLength(b) && Candidates(s) == Candidates(b)
  {
  }

  // ----- Program map section -----

  /**
   * What the scan of a program map section needs of the buffer: the twelve bytes up to the
   * descriptors, and a section length for which `message_length-7` is not negative.
   */
  predicate WholePmt(s: seq<byte>) { WholeSection(s) && 12 <= |s| && 7 <= MessageLength(s) }

  /** `byte_offset<(message_length-7)`, compared as unsigned. */
  predicate InLoop(s: seq<byte>, byteOffset: nat)
    requires 3 <= |s|
  {
    byteOffset < ToUnsigned(MessageLength(s) - 7)
  }

  function FirstOffset(s: seq<byte>): nat
    requires 12 <= |s|
  {
    12 + Low12(Read16(s, 10))
  }

  function NextOffset(s: seq<byte>, byteOffset: nat): nat
    requires byteOffset + 5 <= |s|
  {
    byteOffset + Low12(Read16(s, byteOffset + 3)) + 5
  }

  /**
   * An entry is read exactly where the five bytes up to its descriptors end before the last
   * three of the section, so every read is inside it; and the offset then grows.
   */
  lemma PmtReadsInSection(s: seq<byte>, byteOffset: nat)
    requires WholePmt(s)
    ensures InLoop(s, byteOffset) <==> byteOffset + 5 <= MessageLength(s) - 3
    ensures MessageLength(s) <= |s|
    ensures InLoop(s, byteOffset) ==> byteOffset + 5 <= NextOffset(s, byteOffset) < 0x1_0000_0000
  {
  }

  /**
   * The guard keeps the loop inside the section exactly when the section has seven bytes or
   * more: below that the unsigned bound is close to four thousand million, and the very
   * first entry is read although it starts behind the section.
   */
  lemma GuardBoundsReadsIff(s: seq<byte>)
    requires 12 <= |s|
    ensures (InLoop(s, FirstOffset(s)) ==> FirstOffset(s) + 5 <= MessageLength(s)) <==> 7 <= MessageLength(s)
    ensures MessageLength(s) < 7 ==> InLoop(s, FirstOffset(s)) && MessageLength(s) < FirstOffset(s)
    ensures 7 <= MessageLength(s) ==>
              forall byteOffset: nat :: InLoop(s, byteOffset) ==> byteOffset + 5 <= MessageLength(s)
  {
  }

  const SHORT_SECTION: seq<byte> := [0x02, 0xB0, 0x00, 0x00, 0x01, 0xC1, 0x00, 0x00, 0xE0, 0x64, 0xF0, 0x00]

  /** A table with section_length 0: three bytes, yet the loop goes on to an entry at offset 12. */
  lemma ShortSectionReadBeyond()
    ensures WholeSection(SHORT_SECTION) && MessageLength(SHORT_SECTION) == 3
    ensures FirstOffset(SHORT_SECTION) == 12 && InLoop(SHORT_SECTION, 12)
  {
  }

  /** The entries met from `byteOffset` on when the loop is not left early. */
  function Walk(s: seq<byte>, byteOffset: nat): (es: seq<Entry>)
    requires WholePmt(s)
    decreases MessageLength(s) - byteOffset
  {
    if InLoop(s, byteOffset) then
      [Entry(byteOffset, s[byteOffset], Low13(Read16(s, byteOffset + 1)))]
      + Walk(s, NextOffset(s, byteOffset))
    else []
  }

  function Entries(s: seq<byte>): seq<Entry>
    requires WholePmt(s)
  {
    Walk(s, FirstOffset(s))
  }

  lemma {:induction false} WalkTrailingIgnored(b: seq<byte>, s: seq<byte>, byteOffset: nat)
    requires WholePmt(b) && b <= s
    ensures WholePmt(s) && MessageLength(s) == MessageLength(b)
    ensures Walk(s, byteOffset) == Walk(b, byteOffset)
    decreases MessageLength(b) - byteOffset
  {
    if InLoop(b, byteOffset) {
      PmtReadsInSection(b, byteOffset);
      WalkTrailingIgnored(b, s, NextOffset(b, byteOffset));
    }
  }

  /** Bytes behind the section in its buffer have no effect, whatever the section holds. */
  lemma PmtTrailingIgnored(b: seq<byte>, s: seq<byte>)
    requires WholePmt(b) && b <= s
    ensures WholePmt(s) && MessageLength(s) == MessageLength(b)
    ensures Entries(s) == Entries(b) && Low13(Read16(s, 8)) == Low13(Read16(b, 8))
  {
    WalkTrailingIgnored(b, s, FirstOffset(b));
  }

  /** Of any section whatever, a reported PID is -1 or thirteen bits wide. */
  lemma ReportedPidsInRange(s: seq<byte>)
    requires WholePmt(s)
    ensures var c := Choose(Entries(s)); -1 <= c.video < 0x2000 && -1 <= c.audio < 0x2000
  {
    var es := Entries(s);
    var read := es[..StopAt(es)];
    assert IsLast(read, Video, LastPid(read, Video)) && IsLast(read, Audio, LastPid(read, Audio));
  }

  method FindStreamPids(pmtBuffer: seq<byte>)
    returns (pcrPid: int, videoPid: int, audioPid: int)
    requires WholePmt(pmtBuffer)
    ensures pcrPid == Low13(Read16(pmtBuffer, 8))
    ensures Chosen(videoPid, audioPid) == Choose(Entries(pmtBuffer))
  {
    pcrPid := Low13(Read16(pmtBuffer, 8));
    var byteOffset := FirstOffset(pmtBuffer);
    audioPid := -1;
    videoPid := -1;
    ResumeChooses(Entries(pmtBuffer), 0);
    while InLoop(pmtBuffer, byteOffset) && (audioPid < 0 || videoPid < 0)
      invariant Resume(videoPid, audioPid, Walk(pmtBuffer, byteOffset)) == Choose(Entries(pmtBuffer))
      decreases MessageLength(pmtBuffer) - byteOffset
    {
      var streamType := pmtBuffer[byteOffset];
      match JudgeAvType(streamType) {
        case Video => videoPid := Low13(Read16(pmtBuffer, byteOffset + 1));
        case Audio => audioPid := Low13(Read16(pmtBuffer, byteOffset + 1));
        case Unknown =>
      }
      byteOffset := NextOffset(pmtBuffer, byteOffset);
    }
  }
}

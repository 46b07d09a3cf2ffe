/**
 * Program association and program map sections, and their byte layout, as sections
 * 2.4.4.3 and 2.4.4.8 of ISO/IEC 13818-1 (ITU-T H.222.0) give it.  Nothing here looks
 * at the parser: this is the independent reference the parser is proved against.
 */
module Sections {
  import opened Bytes

  datatype PatEntry = PatEntry(programNumber: word, reserved: Bits3, pid: Pid)

  datatype Pat = Pat(
    tableId: byte, flags: Bits4, transportStreamId: word, version: byte,
    sectionNumber: byte, lastSectionNumber: byte, entries: seq<PatEntry>, crc: seq<byte>)

  datatype Stream = Stream(
    streamType: byte, pidReserved: Bits3, pid: Pid, infoReserved: Bits4, info: seq<byte>)

  datatype Pmt = Pmt(
    tableId: byte, flags: Bits4, programNumber: word, version: byte,
    sectionNumber: byte, lastSectionNumber: byte, pcrReserved: Bits3, pcrPid: Pid,
    infoReserved: Bits4, programInfo: seq<byte>, streams: seq<Stream>, crc: seq<byte>)

  // ----- Program association section -----

  function PatEntryBytes(e: PatEntry): (b: seq<byte>)
    ensures |b| == 4
  {
    Put16(e.programNumber) + PutPid(e.reserved, e.pid)
  }

  function PatLoopBytes(entries: seq<PatEntry>): (b: seq<byte>)
    ensures |b| == 4 * |entries|
  {
    if entries == [] then []
    else PatEntryBytes(entries[0]) + PatLoopBytes(entries[1..])
  }

  function PatSectionLength(p: Pat): nat { 5 + 4 * |p.entries| + 4 }

  /** The length fits its 12-bit field; the standard's own limit of 1021 is stricter. */
  predicate PatWellFormed(p: Pat) { |p.crc| == 4 && PatSectionLength(p) < 0x1000 }

  function PatHeader(p: Pat): (b: seq<byte>)
    requires PatWellFormed(p)
    ensures |b| == 8
  {
    [p.tableId] + PutLength(p.flags, PatSectionLength(p)) + Put16(p.transportStreamId)
    + [p.version, p.sectionNumber, p.lastSectionNumber]
  }

  function PatBytes(p: Pat): (b: seq<byte>)
    requires PatWellFormed(p)
    ensures |b| == PatSectionLength(p) + 3
  {
    PatHeader(p) + PatLoopBytes(p.entries) + p.crc
  }

  // ----- Program map section -----

  function StreamSize(s: Stream): nat { 5 + |s.info| }

  function StreamBytes(s: Stream): (b: seq<byte>)
    requires |s.info| < 0x1000
    ensures |b| == StreamSize(s)
  {
    [s.streamType] + PutPid(s.pidReserved, s.pid) + PutLength(s.infoReserved, |s.info|) + s.info
  }

  predicate InfoFits(streams: seq<Stream>) {
    forall s | s in streams :: |s.info| < 0x1000
  }

  function LoopSize(streams: seq<Stream>): nat {
    if streams == [] then 0 else StreamSize(streams[0]) + LoopSize(streams[1..])
  }

  function LoopBytes(streams: seq<Stream>): (b: seq<byte>)
    requires InfoFits(streams)
    ensures |b| == LoopSize(streams)
  {
    if streams == [] then [] else StreamBytes(streams[0]) + LoopBytes(streams[1..])
  }

  function PmtSectionLength(p: Pmt): nat {
    9 + |p.programInfo| + LoopSize(p.streams) + 4
  }

  predicate PmtWellFormed(p: Pmt) {
    |p.crc| == 4 && InfoFits(p.streams) && PmtSectionLength(p) < 0x1000
  }

  function PmtHeader(p: Pmt): (b: seq<byte>)
    requires PmtWellFormed(p)
    ensures |b| == 12
  {
    [p.tableId] + PutLength(p.flags, PmtSectionLength(p)) + Put16(p.programNumber)
    + [p.version, p.sectionNumber, p.lastSectionNumber]
    + PutPid(p.pcrReserved, p.pcrPid) + PutLength(p.infoReserved, |p.programInfo|)
  }

  function PmtBytes(p: Pmt): (b: seq<byte>)
    requires PmtWellFormed(p)
    ensures |b| == PmtSectionLength(p) + 3
  {
    PmtHeader(p) + p.programInfo + LoopBytes(p.streams) + p.crc
  }

  /** Offset of entry `i` of the stream loop; for `i == |p.streams|`, of the CRC. */
  function StartOf(p: Pmt, i: nat): nat
    requires i <= |p.streams|
  {
    12 + |p.programInfo| + LoopSize(p.streams[..i])
  }
}

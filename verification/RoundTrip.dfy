/**
 * The byte loops of SectionParser read back what Sections lays out: for every well-formed
 * section, and whatever its reserved bits, descriptors and CRC hold.
 */
module RoundTrip {
  import opened Bytes
  import opened Sections
  import opened StreamChoice
  import opened SectionParser

  // ----- Program association section -----

  function Programs(entries: seq<PatEntry>): (cs: seq<Candidate>)
    ensures |cs| == |entries|
  {
    seq(|entries|, i requires 0 <= i < |entries| => Candidate(entries[i].programNumber, entries[i].pid))
  }

  lemma {:induction false} PatEntryAt(entries: seq<PatEntry>, i: nat)
    requires i < |entries|
    ensures PatLoopBytes(entries)[4 * i..4 * i + 4] == PatEntryBytes(entries[i])
  {
    var head, rest := PatEntryBytes(entries[0]), PatLoopBytes(entries[1..]);
    if i > 0 {
      PatEntryAt(entries[1..], i - 1);
      assert (head + rest)[4 * i..4 * i + 4] == rest[4 * (i - 1)..4 * (i - 1) + 4];
    }
  }

  lemma PatLength(p: Pat)
    requires PatWellFormed(p)
    ensures SectionLength(PatBytes(p)) == PatSectionLength(p)
  {
    var b, l := PatBytes(p), PutLength(p.flags, PatSectionLength(p));
    assert PatHeader(p)[1] == l[0] && PatHeader(p)[2] == l[1];
    assert b[1] == l[0] && b[2] == l[1];
  }

  lemma PatEntryRead(p: Pat, i: nat)
    requires PatWellFormed(p) && i < |p.entries|
    ensures var b := PatBytes(p);
            && Read16(b, 8 + i * 4) == p.entries[i].programNumber
            && Low13(Read16(b, 8 + i * 4 + 2)) == p.entries[i].pid
  {
    PatEntryAt(p.entries, i);
    var b, at := PatBytes(p), 8 + i * 4;
    var number, pid := Put16(p.entries[i].programNumber), PutPid(p.entries[i].reserved, p.entries[i].pid);
    assert b[at..at + 4] == PatLoopBytes(p.entries)[4 * i..4 * i + 4] == number + pid;
    assert b[at] == b[at..at + 4][0] == number[0] && b[at + 1] == b[at..at + 4][1] == number[1];
    assert b[at + 2] == b[at..at + 4][2] == pid[0] && b[at + 3] == b[at..at + 4][3] == pid[1];
  }

  /** A list of n programs gives exactly n candidates: the list itself, in order. */
  lemma PatRoundTrip(p: Pat)
    requires PatWellFormed(p)
    ensures WholeSection(PatBytes(p)) && MessageLength(PatBytes(p)) == |PatBytes(p)|
    ensures ProgramBound(PatBytes(p)) == |p.entries|
    ensures Candidates(PatBytes(p)) == Programs(p.entries)
  {
    PatLength(p);
    forall i: nat | i < |p.entries|
      ensures CandidateAt(PatBytes(p), i) == Programs(p.entries)[i]
    {
      PatEntryRead(p, i);
    }
  }

  // ----- Program map section -----

  lemma PmtHeaderParts(p: Pmt)
    requires PmtWellFormed(p)
    ensures var h := PmtHeader(p);
            && h[1..3] == PutLength(p.flags, PmtSectionLength(p))
            && h[8..10] == PutPid(p.pcrReserved, p.pcrPid)
            && h[10..12] == PutLength(p.infoReserved, |p.programInfo|)
  {
  }

  lemma ReadSlice(s: seq<byte>, t: seq<byte>, at: nat)
    requires at + 2 <= |s| <= |t| && t[..|s|] == s
    ensures Read16(t, at) == Read16(s[at..at + 2], 0)
  {
    assert t[at] == s[at] == s[at..at + 2][0] && t[at + 1] == s[at + 1] == s[at..at + 2][1];
  }

  lemma PmtHeaderFields(p: Pmt)
    requires PmtWellFormed(p)
    ensures var b := PmtBytes(p);
            && SectionLength(b) == PmtSectionLength(p)
            && Low13(Read16(b, 8)) == p.pcrPid
            && FirstOffset(b) == 12 + |p.programInfo|
  {
    var h, rest := PmtHeader(p), p.programInfo + LoopBytes(p.streams) + p.crc;
    assert PmtBytes(p) == h + rest;
    PmtHeaderParts(p);
    ReadSlice(h, h + rest, 1);
    ReadSlice(h, h + rest, 8);
    ReadSlice(h, h + rest, 10);
  }

  /** The entries of a stream list laid out from offset `at` on. */
  function Located(streams: seq<Stream>, at: nat): (es: seq<Entry>)
    ensures |es| == |streams|
  {
    if streams == [] then []
    else [Entry(at, streams[0].streamType, streams[0].pid)]
         + Located(streams[1..], at + StreamSize(streams[0]))
  }

  lemma {:induction false} LocatedAt(streams: seq<Stream>, at: nat, i: nat)
    requires i < |streams|
    ensures Located(streams, at)[i]
         == Entry(at + LoopSize(streams[..i]), streams[i].streamType, streams[i].pid)
  {
    if i > 0 {
      LocatedAt(streams[1..], at + StreamSize(streams[0]), i - 1);
      assert streams[..i][1..] == streams[1..][..i - 1];
    }
  }

  /** The fields of one laid-out stream entry, read at its start. */
  lemma StreamRead(s: seq<byte>, at: nat, stream: Stream)
    requires |stream.info| < 0x1000 && at + StreamSize(stream) <= |s|
    requires s[at..at + StreamSize(stream)] == StreamBytes(stream)
    ensures s[at] == stream.streamType && Low13(Read16(s, at + 1)) == stream.pid
    ensures NextOffset(s, at) == at + StreamSize(stream)
  {
    var b, t := StreamBytes(stream), s[at..at + StreamSize(stream)];
    var pid := PutPid(stream.pidReserved, stream.pid);
    var info := PutLength(stream.infoReserved, |stream.info|);
    assert b[1] == pid[0] && b[2] == pid[1] && b[3] == info[0] && b[4] == info[1];
    assert t[0] == s[at] && t[1] == s[at + 1] && t[2] == s[at + 2] && t[3] == s[at + 3] && t[4] == s[at + 4];
    assert Read16(s, at + 1) == Read16(pid, 0) && Read16(s, at + 3) == Read16(info, 0);
  }

  lemma SliceSplit(s: seq<byte>, at: nat, a: seq<byte>, b: seq<byte>)
    requires at + |a| + |b| <= |s| && s[at..at + |a| + |b|] == a + b
    ensures s[at..at + |a|] == a && s[at + |a|..at + |a| + |b|] == b
  {
    var t := s[at..at + |a| + |b|];
    assert s[at..at + |a|] == t[..|a|] == a;
    assert s[at + |a|..at + |a| + |b|] == t[|a|..] == b;
  }

  /** Read from offset `at` on, the section gives the stream types and PIDs of the list. */
  predicate ReadsAs(s: seq<byte>, at: nat, streams: seq<Stream>)
    decreases |streams|
  {
    streams == []
    || (at + 5 <= |s|
        && s[at] == streams[0].streamType
        && Low13(Read16(s, at + 1)) == streams[0].pid
        && NextOffset(s, at) == at + StreamSize(streams[0])
        && ReadsAs(s, at + StreamSize(streams[0]), streams[1..]))
  }

  lemma FirstStreamRead(s: seq<byte>, at: nat, streams: seq<Stream>)
    requires streams != [] && InfoFits(streams) && at + LoopSize(streams) <= |s|
    requires s[at..at + LoopSize(streams)] == LoopBytes(streams)
    ensures s[at] == streams[0].streamType && Low13(Read16(s, at + 1)) == streams[0].pid
    ensures NextOffset(s, at) == at + StreamSize(streams[0])
    ensures s[at + StreamSize(streams[0])..at + LoopSize(streams)] == LoopBytes(streams[1..])
  {
    SliceSplit(s, at, StreamBytes(streams[0]), LoopBytes(streams[1..]));
    StreamRead(s, at, streams[0]);
  }

  lemma {:induction false} LoopReadsBack(s: seq<byte>, at: nat, streams: seq<Stream>)
    requires InfoFits(streams) && at + LoopSize(streams) <= |s|
    requires s[at..at + LoopSize(streams)] == LoopBytes(streams)
    ensures ReadsAs(s, at, streams)
    decreases |streams|
  {
    if streams != [] {
      FirstStreamRead(s, at, streams);
      LoopReadsBack(s, at + StreamSize(streams[0]), streams[1..]);
    }
  }

  /** From the start of a laid-out stream list the walk meets its entries and then stops. */
  lemma {:induction false} WalkReadsLoop(s: seq<byte>, at: nat, streams: seq<Stream>)
    requires WholePmt(s) && ReadsAs(s, at, streams)
    requires at + LoopSize(streams) + 4 == MessageLength(s)
    ensures Walk(s, at) == Located(streams, at)
    decreases |streams|
  {
    if streams != [] {
      WalkReadsLoop(s, at + StreamSize(streams[0]), streams[1..]);
    }
  }

  /**
   * The walk of a serialized program map section meets precisely the entries of its
   * stream list, each where it starts, with its stream type and PID.
   */
  lemma PmtRoundTrip(p: Pmt)
    requires PmtWellFormed(p)
    ensures WholePmt(PmtBytes(p)) && MessageLength(PmtBytes(p)) == |PmtBytes(p)|
    ensures Low13(Read16(PmtBytes(p), 8)) == p.pcrPid
    ensures Entries(PmtBytes(p)) == Located(p.streams, 12 + |p.programInfo|)
  {
    PmtHeaderFields(p);
    var b, at := PmtBytes(p), 12 + |p.programInfo|;
    assert b[at..at + LoopSize(p.streams)] == LoopBytes(p.streams);
    LoopReadsBack(b, at, p.streams);
    WalkReadsLoop(b, at, p.streams);
  }

  lemma {:induction false} LoopSizeStep(streams: seq<Stream>, i: nat)
    requires i < |streams|
    ensures LoopSize(streams[..i]) + StreamSize(streams[i]) <= LoopSize(streams)
  {
    if i > 0 {
      LoopSizeStep(streams[1..], i - 1);
      assert streams[..i][1..] == streams[1..][..i - 1];
    }
  }

  /** At the start of an entry or of the CRC the guard says exactly "not yet at the CRC". */
  lemma GuardIffBeforeCrc(p: Pmt, i: nat)
    requires PmtWellFormed(p) && i <= |p.streams|
    ensures InLoop(PmtBytes(p), StartOf(p, i)) <==> i < |p.streams|
  {
    PmtHeaderFields(p);
    if i < |p.streams| {
      LoopSizeStep(p.streams, i);
    } else {
      assert p.streams[..i] == p.streams;
    }
  }

  // ----- The reported PIDs depend on the stream types and PIDs alone -----

  /** The PIDs the standard's stream list gives, with no bytes and no offsets. */
  function StreamList(streams: seq<Stream>): (es: seq<Entry>)
    ensures |es| == |streams|
  {
    seq(|streams|, i requires 0 <= i < |streams| => Entry(0, streams[i].streamType, streams[i].pid))
  }

  predicate SameButOffsets(es: seq<Entry>, fs: seq<Entry>) {
    |es| == |fs| && forall i :: 0 <= i < |es| ==> es[i].(at := 0) == fs[i].(at := 0)
  }

  lemma SameKinds(es: seq<Entry>, fs: seq<Entry>, k: Kind)
    requires SameButOffsets(es, fs)
    ensures Has(es, k) <==> Has(fs, k)
  {
    forall i | 0 <= i < |es| ensures KindOf(es[i]) == KindOf(fs[i]) {
      assert es[i].(at := 0) == fs[i].(at := 0);
    }
  }

  lemma SameLast(es: seq<Entry>, fs: seq<Entry>, k: Kind)
    requires SameButOffsets(es, fs)
    ensures IsLast(fs, k, LastPid(es, k))
  {
    SameKinds(es, fs, k);
    var pid := LastPid(es, k);
    assert IsLast(es, k, pid);
    assert forall i :: 0 <= i < |es| ==> KindOf(es[i]) == KindOf(fs[i]) && es[i].pid == fs[i].pid by {
      assert forall i :: 0 <= i < |es| ==> es[i].(at := 0) == fs[i].(at := 0);
    }
  }

  lemma OffsetsDoNotMatter(es: seq<Entry>, fs: seq<Entry>)
    requires SameButOffsets(es, fs)
    ensures Choose(es) == Choose(fs)
  {
    var n := StopAt(es);
    forall j: nat | j <= |es|
      ensures Complete(es[..j]) <==> Complete(fs[..j])
    {
      SameKinds(es[..j], fs[..j], Video);
      SameKinds(es[..j], fs[..j], Audio);
    }
    assert IsStop(fs, n);
    SameLast(es[..n], fs[..n], Video);
    SameLast(es[..n], fs[..n], Audio);
    ChoiceDetermined(fs, n, Choose(es).video, Choose(es).audio);
  }

  /**
   * What a program map section reports is the choice made on its stream list: reserved
   * bits, descriptors, program information, header fields and CRC have no effect.
   */
  lemma PmtReports(p: Pmt)
    requires PmtWellFormed(p)
    ensures WholePmt(PmtBytes(p))
    ensures Choose(Entries(PmtBytes(p))) == Choose(StreamList(p.streams))
  {
    PmtRoundTrip(p);
    var at := 12 + |p.programInfo|;
    forall i: nat | i < |p.streams|
      ensures Located(p.streams, at)[i].(at := 0) == StreamList(p.streams)[i]
    {
      LocatedAt(p.streams, at, i);
    }
    OffsetsDoNotMatter(Entries(PmtBytes(p)), StreamList(p.streams));
  }
}

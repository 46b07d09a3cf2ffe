/**
 * What every run of ipqam_pid_parser does, whatever the demultiplexer answers: how it uses
 * PID channels and the message handle, which code and error number it ends with, and which
 * streams it reports.
 */
module LookupTheorems {
  import opened Bytes
  import opened Sections
  import opened StreamChoice
  import opened SectionParser
  import opened RoundTrip
  import opened PidLookup

  // ----- A protocol for the Nexus calls -----

  datatype Link = Closed | Idle(pid: Pid) | Running(pid: Pid)

  /**
   * The PID channel, whether the message handle is open, the section got but not released,
   * and whether a buffer was asked for in vain.
   */
  datatype Usage = Usage(link: Link, message: bool, unread: nat, empty: bool)

  datatype Checked = Legal(usage: Usage) | Illegal

  const NOTHING := Usage(Closed, false, 0, false)

  /** The message is running, with nothing to release and nothing asked for in vain. */
  predicate Ready(u: Usage) { u.link.Running? && u.unread == 0 && !u.empty }

  /**
   * Which calls are in order: one channel at a time, data only from a running message, each
   * section released once, with its own length, before anything else is done with the
   * channel, and after a buffer asked for in vain a wait, or an error, before the next.
   */
  function Check(u: Usage, e: Event): Checked {
    match e
    case OpenPid(pid) => if u.link.Closed? then Legal(u.(link := Idle(pid))) else Illegal
    case ClosePid => if u.link.Idle? then Legal(u.(link := Closed)) else Illegal
    case OpenMessage => if !u.message then Legal(u.(message := true)) else Illegal
    case CloseMessage => if u.message && !u.link.Running? then Legal(u.(message := false)) else Illegal
    case Start(ok) =>
      if u.message && u.link.Idle? then Legal(if ok then u.(link := Running(u.link.pid)) else u) else Illegal
    case Stop => if Ready(u) then Legal(u.(link := Idle(u.link.pid))) else Illegal
    case GetBuffer(length) => if Ready(u) then Legal(u.(unread := length, empty := length == 0)) else Illegal
    case Wait => if u.link.Running? && u.empty then Legal(u.(empty := false)) else Illegal
    case ReadComplete(length) =>
      if u.link.Running? && 0 < length == u.unread then Legal(u.(unread := 0)) else Illegal
    case SetErrno(_) => Legal(u.(empty := false))
  }

  function CheckAll(u: Usage, log: seq<Event>): Checked
    decreases |log|
  {
    if log == [] then Legal(u)
    else match Check(u, log[0])
      case Illegal => Illegal
      case Legal(v) => CheckAll(v, log[1..])
  }

  lemma {:induction false} CheckAppend(u: Usage, a: seq<Event>, b: seq<Event>)
    ensures CheckAll(u, a + b) == match CheckAll(u, a)
                                  case Illegal => Illegal
                                  case Legal(v) => CheckAll(v, b)
    decreases |a|
  {
    if a == [] {
      assert a + b == b;
    } else if Check(u, a[0]).Legal? {
      CheckAppend(Check(u, a[0]).usage, a[1..], b);
      assert (a + b)[1..] == a[1..] + b;
    }
  }

  /** Opens less closes of PID channels. */
  function Held(log: seq<Event>): int {
    if log == [] then 0
    else Held(log[..|log| - 1])
         + match log[|log| - 1] { case OpenPid(_) => 1 case ClosePid => -1 case _ => 0 }
  }

  /** In an orderly log no channel is closed twice and there is never more than one open. */
  lemma {:induction false} OrderlyHoldsAtMostOne(log: seq<Event>)
    requires CheckAll(NOTHING, log).Legal?
    ensures Held(log) == if CheckAll(NOTHING, log).usage.link.Closed? then 0 else 1
    decreases |log|
  {
    if log != [] {
      var front, last := log[..|log| - 1], log[|log| - 1];
      assert log == front + [last];
      CheckAppend(NOTHING, front, [last]);
      OrderlyHoldsAtMostOne(front);
      var v := CheckAll(NOTHING, front).usage;
      assert CheckAll(v, [last]) == Check(v, last);
    }
  }

  lemma OrderlyAtEveryMoment(log: seq<Event>, moment: nat)
    requires moment <= |log| && CheckAll(NOTHING, log).Legal?
    ensures 0 <= Held(log[..moment]) <= 1
  {
    assert log == log[..moment] + log[moment..];
    CheckAppend(NOTHING, log[..moment], log[moment..]);
    OrderlyHoldsAtMostOne(log[..moment]);
  }

  lemma CheckTwo(u: Usage, e: Event, f: Event)
    ensures CheckAll(u, [e, f]) == match Check(u, e)
                                   case Illegal => Illegal
                                   case Legal(v) => Check(v, f)
  {
    CheckAppend(u, [e], [f]);
    assert [e, f] == [e] + [f];
  }

  lemma CheckThree(u: Usage, e: Event, f: Event, g: Event)
    ensures CheckAll(u, [e, f, g]) == match CheckAll(u, [e, f])
                                      case Illegal => Illegal
                                      case Legal(v) => Check(v, g)
  {
    CheckAppend(u, [e, f], [g]);
    assert [e, f, g] == [e, f] + [g];
  }

  /** Waiting leaves the channel running, with at most the section it brought to be released. */
  lemma {:induction false} AwaitOrderly(u: Usage, polls: seq<Poll>)
    requires Ready(u)
    ensures var a := Await(polls);
            var got := if a.arrival.Got? then LengthGot(Delivered(a.arrival.section)) else 0;
            CheckAll(u, a.log) == Legal(u.(unread := got, empty := a.arrival.Got? && got == 0))
  {
    if polls != [] {
      CheckTwo(u, GetBuffer(0), SetErrno(ErrDemux));
      CheckTwo(u, GetBuffer(0), Wait);
      CheckThree(u, GetBuffer(0), Wait, SetErrno(ErrDemux));
      if polls[0] == NothingYet(true) {
        AwaitOrderly(u, polls[1..]);
        CheckAppend(u, [GetBuffer(0), Wait], Await(polls[1..]).log);
      }
    }
  }

  lemma ClosingOrderly(pid: Pid, length: nat)
    requires 0 < length
    ensures CheckAll(Usage(Running(pid), true, length, false), [ReadComplete(length), Stop, CloseMessage, ClosePid])
         == Legal(NOTHING)
  {
    var u := Usage(Running(pid), true, length, false);
    CheckTwo(u, ReadComplete(length), Stop);
    CheckTwo(Usage(Idle(pid), true, 0, false), CloseMessage, ClosePid);
    CheckAppend(u, [ReadComplete(length), Stop], [CloseMessage, ClosePid]);
    assert [ReadComplete(length), Stop] + [CloseMessage, ClosePid]
        == [ReadComplete(length), Stop, CloseMessage, ClosePid];
  }

  /** One channel and the message handle are open, and no section is unreleased. */
  predicate LeftOpen(c: Checked, pid: Pid) {
    c in {Legal(Usage(Idle(pid), true, 0, false)), Legal(Usage(Running(pid), true, 0, false))}
  }

  lemma BegunPmtOrderly(pid: Pid, starts: bool)
    ensures var u := Usage(Closed, true, 0, false);
            && CheckAll(u, [OpenPid(pid), Start(starts)])
               == Legal(Usage(if starts then Running(pid) else Idle(pid), true, 0, false))
            && CheckAll(u, [OpenPid(pid), Start(false), SetErrno(ErrDemux)]) == Legal(Usage(Idle(pid), true, 0, false))
  {
    CheckTwo(Usage(Closed, true, 0, false), OpenPid(pid), Start(starts));
    CheckTwo(Usage(Closed, true, 0, false), OpenPid(pid), Start(false));
    CheckThree(Usage(Closed, true, 0, false), OpenPid(pid), Start(false), SetErrno(ErrDemux));
  }

  lemma AfterPmtOrderly(u: Usage, log: seq<Event>, pid: Pid, length: nat)
    requires 0 < length && CheckAll(u, log) == Legal(Usage(Running(pid), true, length, false))
    ensures CheckAll(u, log + [ReadComplete(length), Stop, CloseMessage, ClosePid]) == Legal(NOTHING)
  {
    CheckAppend(u, log, [ReadComplete(length), Stop, CloseMessage, ClosePid]);
    ClosingOrderly(pid, length);
  }

  lemma PmtOrderly(air: Broadcast, pid: Pid, before: Pids)
    requires PmtWhole(air, pid)
    ensures var run := RunPmt(air, pid, before);
            var end := CheckAll(Usage(Closed, true, 0, false), run.log);
            if run.exit == Returned(0) then end == Legal(NOTHING) else LeftOpen(end, pid)
  {
    var ch, a, u := air(1, pid), Await(air(1, pid).polls), Usage(Closed, true, 0, false);
    BegunPmtOrderly(pid, ch.starts);
    if ch.starts {
      CheckAppend(u, [OpenPid(pid), Start(true)], a.log);
      AwaitOrderly(Usage(Running(pid), true, 0, false), ch.polls);
      if a.arrival.Got? {
        GotIsBrought(air(1, pid));
        assert WholePmt(a.arrival.section);
        AfterPmtOrderly(u, [OpenPid(pid), Start(true)] + a.log, pid, MessageLength(a.arrival.section));
      }
    }
  }

  lemma AfterPatOrderly(u: Usage, log: seq<Event>, length: nat)
    requires 0 < length && CheckAll(u, log) == Legal(Usage(Running(0), true, length, false))
    ensures CheckAll(u, log + [ReadComplete(length)] + [SetErrno(ErrNoPmt)]) == Legal(Usage(Running(0), true, 0, false))
    ensures CheckAll(u, log + [ReadComplete(length)] + [Stop, ClosePid]) == Legal(Usage(Closed, true, 0, false))
  {
    CheckAppend(u, log, [ReadComplete(length)]);
    CheckAppend(u, log + [ReadComplete(length)], [SetErrno(ErrNoPmt)]);
    CheckAppend(u, log + [ReadComplete(length)], [Stop, ClosePid]);
    CheckTwo(Usage(Running(0), true, 0, false), Stop, ClosePid);
  }

  lemma BegunOrderly(starts: bool)
    ensures CheckAll(NOTHING, [OpenPid(0), OpenMessage, Start(starts)])
         == Legal(Usage(if starts then Running(0) else Idle(0), true, 0, false))
  {
    CheckTwo(NOTHING, OpenPid(0), OpenMessage);
    CheckThree(NOTHING, OpenPid(0), OpenMessage, Start(starts));
  }

  lemma PatOrderly(air: Broadcast, pnID: word)
    requires PatWhole(air)
    ensures var run := RunPat(air, pnID);
            var end := CheckAll(NOTHING, run.log);
            if run.Found? then end == Legal(Usage(Closed, true, 0, false)) else LeftOpen(end, 0)
  {
    var ch, a, u := air(0, 0), Await(air(0, 0).polls), NOTHING;
    var begun := [OpenPid(0), OpenMessage, Start(ch.starts)];
    BegunOrderly(ch.starts);
    if !ch.starts {
      CheckAppend(u, begun, [SetErrno(ErrDemux)]);
      assert RunPat(air, pnID).log == begun + [SetErrno(ErrDemux)];
    } else {
      CheckAppend(u, begun, a.log);
      AwaitOrderly(Usage(Running(0), true, 0, false), ch.polls);
      if a.arrival.Got? {
        GotIsBrought(ch);
        AfterPatOrderly(u, begun + a.log, MessageLength(a.arrival.section));
      }
    }
  }

  /**
   * Every run makes its calls in order, so at every moment at most one PID channel is
   * open; on return none is, and the message handle is closed, exactly when the code is 0,
   * and otherwise exactly one channel and the message handle are left open.
   */
  lemma RunOrderly(air: Broadcast, pnID: word, before: Pids, moment: nat)
    requires DeliversWhole(air, pnID) && moment <= |RunFrom(air, pnID, before).log|
    ensures var run := RunFrom(air, pnID, before);
            var end := CheckAll(NOTHING, run.log);
            && 0 <= Held(run.log[..moment]) <= 1
            && Held(run.log) == (if run.exit == Returned(0) then 0 else 1)
            && (if run.exit == Returned(0) then end == Legal(NOTHING) else exists pid: Pid :: LeftOpen(end, pid))
  {
    var run, pat := RunFrom(air, pnID, before), RunPat(air, pnID);
    PatOrderly(air, pnID);
    if pat.Found? {
      var pmt := RunPmt(air, pat.pid, before);
      PmtOrderly(air, pat.pid, before);
      CheckAppend(NOTHING, pat.log, pmt.log);
    }
    OrderlyHoldsAtMostOne(run.log);
    OrderlyAtEveryMoment(run.log, moment);
  }

  // ----- The error number -----

  /** The error number after the calls of a log. */
  function ErrnoThrough(log: seq<Event>, e: VodErrno): VodErrno {
    if log == [] then e
    else if log[|log| - 1].SetErrno? then log[|log| - 1].e
    else ErrnoThrough(log[..|log| - 1], e)
  }

  lemma {:induction false} ErrnoAppend(a: seq<Event>, b: seq<Event>, e: VodErrno)
    ensures ErrnoThrough(a + b, e) == ErrnoThrough(b, ErrnoThrough(a, e))
    decreases |b|
  {
    if b == [] {
      assert a + b == a;
    } else {
      ErrnoAppend(a, b[..|b| - 1], e);
      assert (a + b)[..|a + b| - 1] == a + b[..|b| - 1];
    }
  }

  lemma {:induction false} ErrnoUntouched(log: seq<Event>, e: VodErrno)
    requires forall i :: 0 <= i < |log| ==> !log[i].SetErrno?
    ensures ErrnoThrough(log, e) == e
  {
    if log != [] {
      ErrnoUntouched(log[..|log| - 1], e);
    }
  }

  lemma {:induction false} AwaitErrno(polls: seq<Poll>, e: VodErrno)
    ensures ErrnoThrough(Await(polls).log, e) == if Await(polls).arrival.Lost? then ErrDemux else e
  {
    if polls != [] && polls[0] == NothingYet(true) {
      AwaitErrno(polls[1..], e);
      ErrnoAppend([GetBuffer(0), Wait], Await(polls[1..]).log, e);
      ErrnoUntouched([GetBuffer(0), Wait], e);
    }
  }

  lemma PmtErrno(air: Broadcast, pid: Pid, before: Pids, e: VodErrno)
    requires PmtWhole(air, pid)
    ensures var run := RunPmt(air, pid, before); ErrnoThrough(run.log, e) == ErrnoAfter(run.exit, e)
  {
    var ch, a, begun := air(1, pid), Await(air(1, pid).polls), [OpenPid(pid), Start(true)];
    if ch.starts {
      ErrnoUntouched(begun, e);
      ErrnoAppend(begun, a.log, e);
      AwaitErrno(ch.polls, e);
      if a.arrival.Got? {
        GotIsBrought(air(1, pid));
        assert WholePmt(a.arrival.section);
        var closing := [ReadComplete(MessageLength(a.arrival.section)), Stop, CloseMessage, ClosePid];
        ErrnoUntouched(closing, e);
        ErrnoAppend(begun + a.log, closing, e);
      }
    }
  }

  lemma PatErrno(air: Broadcast, pnID: word, e: VodErrno)
    requires PatWhole(air)
    ensures var run := RunPat(air, pnID);
            ErrnoThrough(run.log, e) == if run.Ended? then ErrnoAfter(run.exit, e) else e
  {
    var ch, a, begun := air(0, 0), Await(air(0, 0).polls), [OpenPid(0), OpenMessage, Start(true)];
    if ch.starts {
      ErrnoUntouched(begun, e);
      ErrnoAppend(begun, a.log, e);
      AwaitErrno(ch.polls, e);
      if a.arrival.Got? {
        GotIsBrought(ch);
        var read := [ReadComplete(MessageLength(a.arrival.section))];
        ErrnoUntouched(read, e);
        ErrnoAppend(begun + a.log, read, e);
        ErrnoUntouched([Stop, ClosePid], e);
        ErrnoAppend(begun + a.log + read, [Stop, ClosePid], e);
      }
    }
  }

  /**
   * The calls of a run leave ERR_VOD_NO_PMT for code 4, ERR_VOD_DEMUX for codes 1, 2, 3 and
   * 5, and for code 0, or while still waiting, whatever error number there was; and that
   * is the number the run is said to leave.
   */
  lemma ErrnoByCode(air: Broadcast, pnID: word, before: Pids, e: VodErrno)
    requires DeliversWhole(air, pnID)
    ensures var run := RunFrom(air, pnID, before);
            && (run.exit == Returned(4) ==> ErrnoThrough(run.log, e) == ErrNoPmt)
            && (run.exit in {Returned(1), Returned(2), Returned(3), Returned(5)} ==>
                 ErrnoThrough(run.log, e) == ErrDemux)
            && (run.exit in {Returned(0), StillWaiting} ==> ErrnoThrough(run.log, e) == e)
            && ErrnoThrough(run.log, e) == ErrnoAfter(run.exit, e)
  {
    var pat := RunPat(air, pnID);
    PatErrno(air, pnID, e);
    if pat.Found? {
      PmtErrno(air, pat.pid, before, e);
      ErrnoAppend(pat.log, RunPmt(air, pat.pid, before).log, e);
    }
  }

  // ----- Which code a run returns -----

  /** Nothing but empty buffers and successful waits, to the end of the script. */
  predicate KeepsWaiting(ch: Channel) {
    ch.starts && forall p :: p in ch.polls ==> p == NothingYet(true)
  }

  ghost predicate FailsWith(ch: Channel, p: Poll) { ch.starts && FirstOutcome(ch.polls, p) }

  predicate GotPat(air: Broadcast) { air(0, 0).starts && Await(air(0, 0).polls).arrival.Got? }

  function PidInPat(air: Broadcast, pnID: word): int
    requires PatWhole(air) && GotPat(air)
  {
    GotIsBrought(air(0, 0));
    FirstMatch(Candidates(Await(air(0, 0).polls).arrival.section), pnID)
  }

  lemma NamesIff(air: Broadcast, pnID: word, pid: int)
    requires PatWhole(air)
    ensures Names(air, pnID, pid) <==> GotPat(air) && pid == PidInPat(air, pnID)
  {
    var ch := air(0, 0);
    AwaitIff(ch.polls);
    if Names(air, pnID, pid) {
      var s :| Brings(ch, s) && WholeSection(s) && IsFirstMatch(Candidates(s), pnID, pid);
      FirstMatchUnique(Candidates(s), pnID, pid, FirstMatch(Candidates(s), pnID));
    }
    if GotPat(air) {
      var s := Await(ch.polls).arrival.section;
      GotIsBrought(air(0, 0));
      assert WholeSection(s);
      assert IsFirstMatch(Candidates(s), pnID, FirstMatch(Candidates(s), pnID));
    }
  }

  lemma PatCodesIff(air: Broadcast, pnID: word)
    requires PatWhole(air)
    ensures var run := RunPat(air, pnID);
            && (run.Ended? && run.exit == Returned(1) <==> !air(0, 0).starts)
            && (run.Ended? && run.exit == Returned(2) <==> FailsWith(air(0, 0), BufferFailed))
            && (run.Ended? && run.exit == Returned(3) <==> FailsWith(air(0, 0), NothingYet(false)))
            && (run.Ended? && run.exit == Returned(4) <==> Names(air, pnID, -1))
            && (forall pid: Pid :: run.Found? && run.pid == pid <==> Names(air, pnID, pid))
            && (run.Ended? && run.exit == StillWaiting <==> KeepsWaiting(air(0, 0)))
            && (run.Ended? ==> run.exit == StillWaiting || run.exit.code in {1, 2, 3, 4})
  {
    AwaitIff(air(0, 0).polls);
    NamesIff(air, pnID, -1);
    forall pid: Pid
      ensures RunPat(air, pnID).Found? && RunPat(air, pnID).pid == pid <==> Names(air, pnID, pid)
    {
      NamesIff(air, pnID, pid);
    }
  }

  lemma PmtCodesIff(air: Broadcast, pid: Pid, before: Pids)
    requires PmtWhole(air, pid)
    ensures var run := RunPmt(air, pid, before);
            && (run.exit == Returned(5) <==> !air(1, pid).starts)
            && (run.exit == Returned(2) <==> FailsWith(air(1, pid), BufferFailed))
            && (run.exit == Returned(3) <==> FailsWith(air(1, pid), NothingYet(false)))
            && (run.exit == Returned(0) <==> exists s :: Brings(air(1, pid), s))
            && (run.exit == StillWaiting <==> KeepsWaiting(air(1, pid)))
            && (run.exit == StillWaiting || run.exit.code in {0, 2, 3, 5})
            && (forall s :: Brings(air(1, pid), s) ==> WholePmt(s) && run.pids == PidsOf(s))
            && (run.exit != Returned(0) ==> run.pids == before)
  {
    AwaitIff(air(1, pid).polls);
    if RunPmt(air, pid, before).exit == Returned(0) {
      assert Brings(air(1, pid), Await(air(1, pid).polls).arrival.section);
    }
  }

  /** Outcome `p` ends one of the two waits of the run. */
  ghost predicate FailsIn(air: Broadcast, pnID: word, p: Poll)
  {
    FailsWith(air(0, 0), p) || exists pid: Pid :: Names(air, pnID, pid) && FailsWith(air(1, pid), p)
  }

  /** One of the two waits of the run does not end. */
  ghost predicate WaitsIn(air: Broadcast, pnID: word)
  {
    KeepsWaiting(air(0, 0)) || exists pid: Pid :: Names(air, pnID, pid) && KeepsWaiting(air(1, pid))
  }

  /** Every way a run can end, by what the demultiplexer did. */
  lemma CodesIff(air: Broadcast, pnID: word, before: Pids)
    requires DeliversWhole(air, pnID)
    ensures var exit := RunFrom(air, pnID, before).exit;
            && (exit == Returned(0) <==>
                 exists pid: Pid :: Names(air, pnID, pid) && exists s :: Brings(air(1, pid), s))
            && (exit == Returned(1) <==> !air(0, 0).starts)
            && (exit == Returned(2) <==> FailsIn(air, pnID, BufferFailed))
            && (exit == Returned(3) <==> FailsIn(air, pnID, NothingYet(false)))
            && (exit == Returned(4) <==> Names(air, pnID, -1))
            && (exit == Returned(5) <==> exists pid: Pid :: Names(air, pnID, pid) && !air(1, pid).starts)
            && (exit == StillWaiting <==> WaitsIn(air, pnID))
            && (exit == StillWaiting || exit.code <= 5)
  {
    PatCodesIff(air, pnID);
    var pat := RunPat(air, pnID);
    if pat.Found? {
      PmtCodesIff(air, pat.pid, before);
      assert Names(air, pnID, pat.pid);
    }
  }

  /** The out-pointers are written on success alone, and then from the section that was brought. */
  lemma PidsWrittenIff(air: Broadcast, pnID: word, before: Pids)
    requires DeliversWhole(air, pnID)
    ensures var run := RunFrom(air, pnID, before);
            && (run.exit != Returned(0) ==> run.pids == before)
            && (forall pid: Pid, s :: Names(air, pnID, pid) && Brings(air(1, pid), s)
                 ==> run.exit == Returned(0) && WholePmt(s) && run.pids == PidsOf(s))
  {
    PatCodesIff(air, pnID);
    var pat := RunPat(air, pnID);
    if pat.Found? {
      PmtCodesIff(air, pat.pid, before);
    }
  }

  // ----- End to end: from serialized sections to the streams of the program -----

  /** Entry `i` is the first of the program. */
  ghost predicate IsFirstEntry(pat: Pat, pnID: word, i: nat) {
    && i < |pat.entries|
    && pat.entries[i].programNumber == pnID
    && forall j: nat :: j < i ==> pat.entries[j].programNumber != pnID
  }

  ghost predicate FirstEntryHas(pat: Pat, pnID: word, pid: int) {
    exists i: nat :: IsFirstEntry(pat, pnID, i) && pat.entries[i].pid == pid
  }

  predicate Lists(pat: Pat, pnID: word) {
    exists e :: e in pat.entries && e.programNumber == pnID
  }

  /** The buffer brought on PID 0, if any is, begins with this program association section. */
  ghost predicate CarriesPat(air: Broadcast, pat: Pat) {
    && PatWellFormed(pat)
    && forall s: seq<byte> :: Brings(air(0, 0), s) ==> PatBytes(pat) <= s
  }

  /** The buffer brought on PID `pid`, if any is, begins with this program map section. */
  ghost predicate CarriesPmt(air: Broadcast, pid: Pid, pmt: Pmt) {
    && PmtWellFormed(pmt)
    && forall s: seq<byte> :: Brings(air(1, pid), s) ==> PmtBytes(pmt) <= s
  }

  /** So it is for the PAT and, on the PID of the first entry for the program, for its PMT. */
  ghost predicate Carries(air: Broadcast, pnID: word, pat: Pat, pmts: Pid -> Pmt) {
    && CarriesPat(air, pat)
    && forall pid: Pid :: FirstEntryHas(pat, pnID, pid) ==> CarriesPmt(air, pid, pmts(pid))
  }

  /** What the streams of a program map section come to, read off the section itself. */
  function ReportOf(pmt: Pmt): Pids {
    var chosen := Choose(StreamList(pmt.streams));
    Pids(chosen.video, chosen.audio, pmt.pcrPid)
  }

  /** A buffer that begins with a serialized PAT has its program list, whatever follows. */
  lemma PatInBuffer(pat: Pat, s: seq<byte>)
    requires PatWellFormed(pat) && PatBytes(pat) <= s
    ensures WholeSection(s) && Candidates(s) == Programs(pat.entries)
    ensures MessageLength(s) == |PatBytes(pat)|
  {
    PatRoundTrip(pat);
    PatTrailingIgnored(PatBytes(pat), s);
  }

  /** A buffer that begins with a serialized PMT gives the PIDs of its stream list, whatever follows. */
  lemma PmtInBuffer(pmt: Pmt, s: seq<byte>)
    requires PmtWellFormed(pmt) && PmtBytes(pmt) <= s
    ensures WholePmt(s) && PidsOf(s) == ReportOf(pmt)
    ensures MessageLength(s) == |PmtBytes(pmt)|
  {
    PmtReports(pmt);
    PmtRoundTrip(pmt);
    PmtTrailingIgnored(PmtBytes(pmt), s);
  }

  lemma FirstMatchOfPat(pat: Pat, pnID: word, pid: int)
    requires IsFirstMatch(Programs(pat.entries), pnID, pid)
    ensures if pid == -1 then !Lists(pat, pnID) else FirstEntryHas(pat, pnID, pid)
  {
    var cs := Programs(pat.entries);
    if exists c :: c in cs && c.programNumber == pnID {
      var i: nat :| i < |cs| && cs[i].programNumber == pnID && pid == cs[i].pid
                    && forall j: nat :: j < i ==> cs[j].programNumber != pnID;
      assert forall j: nat :: j < i ==> pat.entries[j].programNumber == cs[j].programNumber;
      assert IsFirstEntry(pat, pnID, i);
    } else {
      forall e | e in pat.entries ensures e.programNumber != pnID {
        var k: nat :| k < |pat.entries| && pat.entries[k] == e;
        assert cs[k] in cs && cs[k].programNumber == e.programNumber;
      }
    }
  }

  lemma NamesFirstEntry(air: Broadcast, pnID: word, pat: Pat, pid: int)
    requires CarriesPat(air, pat) && Names(air, pnID, pid)
    ensures if pid == -1 then !Lists(pat, pnID) else FirstEntryHas(pat, pnID, pid)
  {
    var s :| Brings(air(0, 0), s) && WholeSection(s) && IsFirstMatch(Candidates(s), pnID, pid);
    PatInBuffer(pat, s);
    FirstMatchOfPat(pat, pnID, pid);
  }

  lemma CarriedPmtIsWhole(air: Broadcast, pid: Pid, pmt: Pmt)
    requires CarriesPmt(air, pid, pmt)
    ensures PmtWhole(air, pid)
    ensures forall s: seq<byte> :: Brings(air(1, pid), s) ==> WholePmt(s) && PidsOf(s) == ReportOf(pmt)
  {
    forall s: seq<byte> | Brings(air(1, pid), s) ensures WholePmt(s) && PidsOf(s) == ReportOf(pmt) {
      PmtInBuffer(pmt, s);
    }
  }

  lemma CarriedIsWhole(air: Broadcast, pnID: word, pat: Pat, pmts: Pid -> Pmt)
    requires Carries(air, pnID, pat, pmts)
    ensures DeliversWhole(air, pnID)
  {
    forall s: seq<byte> | Brings(air(0, 0), s) ensures WholeSection(s) {
      PatInBuffer(pat, s);
    }
    forall pid: Pid | Names(air, pnID, pid) ensures PmtWhole(air, pid) {
      NamesFirstEntry(air, pnID, pat, pid);
      CarriedPmtIsWhole(air, pid, pmts(pid));
    }
  }

  /**
   * Over every run, whatever stands behind the sections in their buffers: code 0 is
   * returned only with the PCR, video and audio PIDs of the program map section carried on
   * the PID of the first entry for the program, and code 4 only when the program
   * association section has no entry for it.
   */
  lemma LookupReportsTheProgram(air: Broadcast, pnID: word, before: Pids, pat: Pat, pmts: Pid -> Pmt)
    requires Carries(air, pnID, pat, pmts)
    ensures DeliversWhole(air, pnID)
    ensures var run := RunFrom(air, pnID, before);
            && (run.exit == Returned(0) ==>
                 exists pid: Pid :: FirstEntryHas(pat, pnID, pid) && run.pids == ReportOf(pmts(pid)))
            && (run.exit == Returned(4) ==> !Lists(pat, pnID))
  {
    CarriedIsWhole(air, pnID, pat, pmts);
    CodesIff(air, pnID, before);
    if RunFrom(air, pnID, before).exit == Returned(0) {
      var pid: Pid :| Names(air, pnID, pid) && exists s :: Brings(air(1, pid), s);
      var s :| Brings(air(1, pid), s);
      PidsWrittenIff(air, pnID, before);
      NamesFirstEntry(air, pnID, pat, pid);
      CarriedPmtIsWhole(air, pid, pmts(pid));
    }
    if RunFrom(air, pnID, before).exit == Returned(4) {
      NamesFirstEntry(air, pnID, pat, -1);
    }
  }

  lemma FirstEntryIsListed(pat: Pat, pnID: word, pid: int)
    requires FirstEntryHas(pat, pnID, pid)
    ensures Lists(pat, pnID)
  {
    var i: nat :| IsFirstEntry(pat, pnID, i) && pat.entries[i].pid == pid;
    assert pat.entries[i] in pat.entries;
  }

  lemma NamedWhenBrought(air: Broadcast, pnID: word, pat: Pat) returns (pid: int)
    requires CarriesPat(air, pat) && exists s :: Brings(air(0, 0), s)
    ensures -1 <= pid < 0x2000 && Names(air, pnID, pid)
    ensures if Lists(pat, pnID) then pid != -1 && FirstEntryHas(pat, pnID, pid) else pid == -1
  {
    var s :| Brings(air(0, 0), s);
    PatInBuffer(pat, s);
    pid := FirstMatch(Candidates(s), pnID);
    FirstMatchOfPat(pat, pnID, pid);
    if pid != -1 {
      FirstEntryIsListed(pat, pnID, pid);
    }
  }

  /** When both sections arrive without error, the lookup succeeds exactly for a listed program. */
  lemma LookupSucceedsIff(air: Broadcast, pnID: word, before: Pids, pat: Pat, pmts: Pid -> Pmt)
    requires Carries(air, pnID, pat, pmts)
    requires exists s :: Brings(air(0, 0), s)
    requires forall pid: Pid :: FirstEntryHas(pat, pnID, pid) ==> exists s :: Brings(air(1, pid), s)
    ensures DeliversWhole(air, pnID)
    ensures RunFrom(air, pnID, before).exit == Returned(if Lists(pat, pnID) then 0 else 4)
  {
    CarriedIsWhole(air, pnID, pat, pmts);
    CodesIff(air, pnID, before);
    var pid := NamedWhenBrought(air, pnID, pat);
  }

  // ----- What a run releases -----

  /** The lengths given back by NEXUS_Message_ReadComplete, in order. */
  function Released(log: seq<Event>): seq<nat> {
    if log == [] then []
    else
      var last := log[|log| - 1];
      Released(log[..|log| - 1]) + if last.ReadComplete? then [last.length] else []
  }

  lemma {:induction false} ReleasedAppend(a: seq<Event>, b: seq<Event>)
    ensures Released(a + b) == Released(a) + Released(b)
    decreases |b|
  {
    if b == [] {
      assert a + b == a;
    } else {
      ReleasedAppend(a, b[..|b| - 1]);
      assert (a + b)[..|a + b| - 1] == a + b[..|b| - 1];
    }
  }

  lemma {:induction false} NothingReleased(log: seq<Event>)
    requires forall i :: 0 <= i < |log| ==> !log[i].ReadComplete?
    ensures Released(log) == []
  {
    if log != [] {
      NothingReleased(log[..|log| - 1]);
    }
  }

  lemma {:induction false} AwaitReleasesNothing(polls: seq<Poll>)
    ensures Released(Await(polls).log) == []
  {
    if polls != [] {
      if polls[0] == NothingYet(true) {
        AwaitReleasesNothing(polls[1..]);
        NothingReleased([GetBuffer(0), Wait]);
        ReleasedAppend([GetBuffer(0), Wait], Await(polls[1..]).log);
      } else {
        NothingReleased(Await(polls).log);
      }
    }
  }

  lemma OneReleased(log: seq<Event>, length: nat, rest: seq<Event>)
    requires Released(log) == [] && forall i :: 0 <= i < |rest| ==> !rest[i].ReadComplete?
    ensures Released(log + [ReadComplete(length)] + rest) == [length]
  {
    NothingReleased(rest);
    ReleasedAppend(log, [ReadComplete(length)]);
    ReleasedAppend(log + [ReadComplete(length)], rest);
    assert [ReadComplete(length)][..0] == [];
  }

  lemma WaitReleasesNothing(begun: seq<Event>, polls: seq<Poll>)
    requires forall i :: 0 <= i < |begun| ==> !begun[i].ReadComplete?
    ensures Released(begun + Await(polls).log) == []
  {
    NothingReleased(begun);
    AwaitReleasesNothing(polls);
    ReleasedAppend(begun, Await(polls).log);
  }

  lemma PatReleases(air: Broadcast, pnID: word, pat: Pat)
    requires PatWhole(air) && CarriesPat(air, pat)
    ensures var run := RunPat(air, pnID);
            Released(run.log) == if run.Found? || run.exit == Returned(4) then [|PatBytes(pat)|] else []
  {
    var ch, a, begun := air(0, 0), Await(air(0, 0).polls), [OpenPid(0), OpenMessage, Start(true)];
    if !ch.starts {
      NothingReleased(RunPat(air, pnID).log);
    } else {
      WaitReleasesNothing(begun, ch.polls);
      if a.arrival.Got? {
        GotIsBrought(air(0, 0));
        PatInBuffer(pat, a.arrival.section);
        OneReleased(begun + a.log, |PatBytes(pat)|, [SetErrno(ErrNoPmt)]);
        OneReleased(begun + a.log, |PatBytes(pat)|, [Stop, ClosePid]);
      }
    }
  }

  /** The calls of the second half of a run: those before a section is got, and the rest. */
  lemma PmtLog(air: Broadcast, pid: Pid, before: Pids) returns (begun: seq<Event>, polls: seq<Poll>, rest: seq<Event>)
    requires PmtWhole(air, pid)
    ensures forall i :: 0 <= i < |begun| ==> !begun[i].ReadComplete?
    ensures forall i :: 0 <= i < |rest| ==> !rest[i].ReadComplete?
    ensures var run := RunPmt(air, pid, before);
            if run.exit == Returned(0) then
              exists s :: && Brings(air(1, pid), s)
                          && MessageLength(s) >= 0
                          && run.log == begun + Await(polls).log + [ReadComplete(MessageLength(s))] + rest
            else
              run.log == begun + Await(polls).log
  {
    var ch := air(1, pid);
    if !ch.starts {
      begun, polls, rest := [OpenPid(pid), Start(false), SetErrno(ErrDemux)], [], [];
    } else {
      begun, polls, rest := [OpenPid(pid), Start(true)], ch.polls, [Stop, CloseMessage, ClosePid];
      var a := Await(polls);
      if a.arrival.Got? {
        GotIsBrought(ch);
        assert RunPmt(air, pid, before).log
            == begun + a.log + [ReadComplete(MessageLength(a.arrival.section))] + rest;
      }
    }
  }

  lemma PmtReleases(air: Broadcast, pid: Pid, before: Pids, pmt: Pmt)
    requires PmtWhole(air, pid) && CarriesPmt(air, pid, pmt)
    ensures var run := RunPmt(air, pid, before);
            Released(run.log) == if run.exit == Returned(0) then [|PmtBytes(pmt)|] else []
  {
    var begun, polls, rest := PmtLog(air, pid, before);
    WaitReleasesNothing(begun, polls);
    if RunPmt(air, pid, before).exit == Returned(0) {
      var log := begun + Await(polls).log;
      var s :| Brings(air(1, pid), s) && MessageLength(s) >= 0
               && RunPmt(air, pid, before).log == log + [ReadComplete(MessageLength(s))] + rest;
      PmtInBuffer(pmt, s);
      OneReleased(log, |PmtBytes(pmt)|, rest);
    }
  }

  lemma CodesOfHalves(air: Broadcast, pnID: word, before: Pids)
    requires DeliversWhole(air, pnID)
    ensures var first := RunPat(air, pnID);
            if first.Found? then
              var exit := RunPmt(air, first.pid, before).exit;
              exit == StillWaiting || exit.code in {0, 2, 3, 5}
            else
              first.exit == StillWaiting || first.exit.code in {1, 2, 3, 4}
  {
    PatCodesIff(air, pnID);
    var first := RunPat(air, pnID);
    if first.Found? {
      PmtCodesIff(air, first.pid, before);
    }
  }

  lemma RunReleasesBoth(air: Broadcast, pnID: word, before: Pids, first: PatRun)
    requires DeliversWhole(air, pnID) && first == RunPat(air, pnID) && first.Found?
    ensures var second := RunPmt(air, first.pid, before);
            Released(RunFrom(air, pnID, before).log) == Released(first.log) + Released(second.log)
  {
    ReleasedAppend(first.log, RunPmt(air, first.pid, before).log);
  }

  /**
   * A run that returns 0 gives back the bytes of the PAT and of the PMT and no more of
   * their buffers; one that returns 4 or 5, those of the PAT; one that returns 1, nothing.
   */
  lemma RunReleasesSections(air: Broadcast, pnID: word, before: Pids, pat: Pat, pmts: Pid -> Pmt)
    requires Carries(air, pnID, pat, pmts)
    ensures DeliversWhole(air, pnID)
    ensures var run := RunFrom(air, pnID, before);
            && (run.exit == Returned(0) ==>
                 exists pid: Pid :: FirstEntryHas(pat, pnID, pid)
                                    && Released(run.log) == [|PatBytes(pat)|, |PmtBytes(pmts(pid))|])
            && (run.exit in {Returned(4), Returned(5)} ==> Released(run.log) == [|PatBytes(pat)|])
            && (run.exit == Returned(1) ==> Released(run.log) == [])
  {
    CarriedIsWhole(air, pnID, pat, pmts);
    PatReleases(air, pnID, pat);
    var first := RunPat(air, pnID);
    CodesOfHalves(air, pnID, before);
    if first.Found? {
      NamesFirstEntry(air, pnID, pat, first.pid);
      PmtReleases(air, first.pid, before, pmts(first.pid));
      RunReleasesBoth(air, pnID, before, first);
    }
  }

  // ----- Whether the first stream of a kind is reported -----

  function PidFor(pids: Pids, k: Kind): int { if k.Video? then pids.video else pids.audio }

  /**
   * Of any program map section: its first stream of a kind is reported exactly when the
   * last stream that overwrites it carries its PID; and, where the streams of the kind have
   * distinct PIDs, exactly when no second one precedes the first stream of the other kind.
   */
  lemma SectionReportsFirstIff(pmt: Pmt, k: Kind)
    requires PmtWellFormed(pmt) && k != Unknown
    ensures WholePmt(PmtBytes(pmt))
    ensures var es, pid := StreamList(pmt.streams), PidFor(PidsOf(PmtBytes(pmt)), k);
            && (pid == FirstPid(es, k) <==> forall j: nat :: LastOverwrite(es, k, j) ==> es[j].pid == FirstPid(es, k))
            && (DistinctPids(es, k) ==> (pid == FirstPid(es, k) <==> OtherKindBetween(es, k)))
  {
    var es := StreamList(pmt.streams);
    PmtInBuffer(pmt, PmtBytes(pmt));
    FirstReportedIff(es, k);
    if DistinctPids(es, k) {
      FirstOfDistinctReportedIff(es, k);
    }
  }

  function TwoVideoSection(u: Pid, v: Pid, a: Pid): Pmt {
    Pmt(2, 0xB, 1, 0xC1, 0, 0, 7, u, 0xF, [],
        [Stream(0x01, 7, u, 0xF, []), Stream(0x01, 7, v, 0xF, []), Stream(0x03, 7, a, 0xF, [])], [0, 0, 0, 0])
  }

  lemma ThreeStreams(x: Stream, y: Stream, z: Stream)
    requires x.info == y.info == z.info == []
    ensures LoopSize([x, y, z]) == 15
    ensures Located([x, y, z], 12)
         == [Entry(12, x.streamType, x.pid), Entry(17, y.streamType, y.pid), Entry(22, z.streamType, z.pid)]
  {
    assert [x, y, z][1..] == [y, z] && [y, z][1..] == [z] && [z][1..] == [];
    assert LoopSize([z]) == 5 && LoopSize([y, z]) == 10;
    assert Located([z], 22) == [Entry(22, z.streamType, z.pid)];
    assert Located([y, z], 17) == [Entry(17, y.streamType, y.pid), Entry(22, z.streamType, z.pid)];
  }

  lemma TwoVideoEntries(u: Pid, v: Pid, a: Pid)
    ensures var pmt := TwoVideoSection(u, v, a);
            && PmtWellFormed(pmt) && WholePmt(PmtBytes(pmt)) && Low13(Read16(PmtBytes(pmt), 8)) == u
            && Entries(PmtBytes(pmt)) == [Entry(12, 0x01, u), Entry(17, 0x01, v), Entry(22, 0x03, a)]
  {
    var pmt := TwoVideoSection(u, v, a);
    ThreeStreams(pmt.streams[0], pmt.streams[1], pmt.streams[2]);
    PmtRoundTrip(pmt);
  }

  /** A section whose second video stream is reported although the first is its PCR stream. */
  lemma SectionReportsSecondVideo(u: Pid, v: Pid, a: Pid) returns (section: seq<byte>)
    ensures PmtWellFormed(TwoVideoSection(u, v, a)) && section == PmtBytes(TwoVideoSection(u, v, a))
    ensures WholePmt(section) && PidsOf(section) == Pids(v, a, u)
    ensures FirstPid(Entries(section), Video) == u
  {
    TwoVideoEntries(u, v, a);
    section := PmtBytes(TwoVideoSection(u, v, a));
    SecondVideoReported(u, v, a);
  }
}

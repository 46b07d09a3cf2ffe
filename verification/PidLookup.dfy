/**
 * The whole of ipqam_pid_parser: open PID 0, wait for a program association section, find
 * the PMT PID of the program, open that PID, wait for a program map section, report its
 * PIDs.  The demultiplexer answers from a finite script of outcomes; a run that comes to
 * the end of its script is one that is still waiting.
 */
module PidLookup {
  import opened Bytes
  import opened StreamChoice
  import opened SectionParser

  /** One turn of the message loop: what NEXUS_Message_GetBuffer gave and, if nothing, the wait. */
  datatype Poll = BufferFailed | NothingYet(waitOk: bool) | Delivered(section: seq<byte>)

  /** What an opened PID channel has in store. */
  datatype Channel = Channel(starts: bool, polls: seq<Poll>)

  /** The channel got by the n-th open (from 0) of a run, on the given PID. */
  type Broadcast = (nat, Pid) -> Channel

  datatype VodErrno = ErrUnknown | ErrDemux | ErrNoPmt

  datatype Event =
    | OpenPid(pid: Pid) | ClosePid | OpenMessage | CloseMessage
    | Start(ok: bool) | Stop | GetBuffer(length: nat) | Wait | ReadComplete(length: nat) | SetErrno(e: VodErrno)

  datatype Exit = Returned(code: nat) | StillWaiting

  /** Length of the section a buffer starts with; 0 when nothing was got. */
  function LengthGot(p: Poll): nat {
    if p.Delivered? && 3 <= |p.section| then MessageLength(p.section) else 0
  }

  // ----- What waiting for a section comes to -----

  datatype Arrival = Got(section: seq<byte>) | Lost(code: nat) | Nothing

  datatype Awaited = Awaited(arrival: Arrival, log: seq<Event>)

  function Await(polls: seq<Poll>): (a: Awaited)
    ensures a.arrival.Lost? ==> a.arrival.code in {2, 3}
  {
    if polls == [] then Awaited(Nothing, [])
    else match polls[0]
      case BufferFailed => Awaited(Lost(2), [GetBuffer(0), SetErrno(ErrDemux)])
      case NothingYet(false) => Awaited(Lost(3), [GetBuffer(0), Wait, SetErrno(ErrDemux)])
      case NothingYet(true) =>
        var later := Await(polls[1..]);
        Awaited(later.arrival, [GetBuffer(0), Wait] + later.log)
      case Delivered(section) => Awaited(Got(section), [GetBuffer(LengthGot(polls[0]))])
  }

  /** `p` is the first outcome other than an empty buffer followed by a successful wait. */
  ghost predicate FirstOutcome(polls: seq<Poll>, p: Poll) {
    p != NothingYet(true)
    && exists k: nat :: k < |polls| && polls[k] == p && forall j: nat :: j < k ==> polls[j] == NothingYet(true)
  }

  lemma RetryShifts(polls: seq<Poll>, p: Poll)
    requires polls != [] && polls[0] == NothingYet(true)
    ensures FirstOutcome(polls, p) <==> FirstOutcome(polls[1..], p)
  {
    if FirstOutcome(polls, p) {
      var k: nat :| k < |polls| && polls[k] == p && forall j: nat :: j < k ==> polls[j] == NothingYet(true);
      assert polls[1..][k - 1] == p;
    }
    if FirstOutcome(polls[1..], p) {
      var k: nat :| k < |polls[1..]| && polls[1..][k] == p
                    && forall j: nat :: j < k ==> polls[1..][j] == NothingYet(true);
      assert polls[k + 1] == p;
      assert forall j: nat :: 0 < j <= k ==> polls[j] == polls[1..][j - 1];
    }
  }

  /** However often it had to wait, a loop ends on the first outcome that is not a retry. */
  lemma {:induction false} AwaitIff(polls: seq<Poll>)
    ensures forall section :: Await(polls).arrival == Got(section) <==> FirstOutcome(polls, Delivered(section))
    ensures Await(polls).arrival == Lost(2) <==> FirstOutcome(polls, BufferFailed)
    ensures Await(polls).arrival == Lost(3) <==> FirstOutcome(polls, NothingYet(false))
    ensures Await(polls).arrival == Nothing <==> forall p :: p in polls ==> p == NothingYet(true)
  {
    if polls != [] {
      AwaitIff(polls[1..]);
      if polls[0] == NothingYet(true) {
        forall p: Poll ensures FirstOutcome(polls, p) <==> FirstOutcome(polls[1..], p) {
          RetryShifts(polls, p);
        }
        assert forall p :: p in polls <==> p == polls[0] || p in polls[1..];
      } else {
        assert polls[0] in polls;
        assert forall p :: FirstOutcome(polls, p) <==> p == polls[0];
      }
    }
  }

  /** A buffer asked for and not there, and the wait for the next, `k` times over. */
  function Retries(k: nat): seq<Event> {
    if k == 0 then [] else [GetBuffer(0), Wait] + Retries(k - 1)
  }

  /** The calls of the turn that ends the loop. */
  function LastTurn(p: Poll): seq<Event> {
    match p
    case BufferFailed => [GetBuffer(0), SetErrno(ErrDemux)]
    case NothingYet(_) => [GetBuffer(0), Wait, SetErrno(ErrDemux)]
    case Delivered(_) => [GetBuffer(LengthGot(p))]
  }

  /** The calls of a loop: every retry asks and waits, and the first other outcome ends it. */
  lemma {:induction false} AwaitCalls(polls: seq<Poll>, k: nat)
    requires k <= |polls| && forall j: nat :: j < k ==> polls[j] == NothingYet(true)
    requires k < |polls| ==> polls[k] != NothingYet(true)
    ensures Await(polls).log == Retries(k) + if k < |polls| then LastTurn(polls[k]) else []
    decreases k
  {
    if k > 0 {
      AwaitCalls(polls[1..], k - 1);
    }
  }

  function Waits(log: seq<Event>): nat {
    if log == [] then 0 else (if log[0] == Wait then 1 else 0) + Waits(log[1..])
  }

  lemma RetryWaits(later: seq<Event>)
    ensures Waits([GetBuffer(0), Wait] + later) == 1 + Waits(later)
  {
    var log := [GetBuffer(0), Wait] + later;
    assert log[1..] == [Wait] + later && log[1..][1..] == later;
  }

  lemma LastTurnWaits(p: Poll)
    ensures Waits(LastTurn(p)) == if p.NothingYet? then 1 else 0
  {
    var log := LastTurn(p);
    if p.NothingYet? {
      assert log[1..] == [Wait, SetErrno(ErrDemux)] && log[1..][1..] == [SetErrno(ErrDemux)];
      assert log[1..][1..][1..] == [];
    } else if p.BufferFailed? {
      assert log[1..] == [SetErrno(ErrDemux)] && log[1..][1..] == [];
      assert Waits(log[1..]) == 0;
    } else {
      assert log[1..] == [];
    }
  }

  /** A loop waits once for every retry, and once more when that wait is the one that fails. */
  lemma {:induction false} AwaitWaits(polls: seq<Poll>, k: nat)
    requires k <= |polls| && forall j: nat :: j < k ==> polls[j] == NothingYet(true)
    requires k < |polls| ==> polls[k] != NothingYet(true)
    ensures Waits(Await(polls).log) == k + if k < |polls| && polls[k] == NothingYet(false) then 1 else 0
    decreases k
  {
    if k > 0 {
      AwaitWaits(polls[1..], k - 1);
      RetryWaits(Await(polls[1..]).log);
    } else if k < |polls| {
      LastTurnWaits(polls[0]);
      assert Await(polls).log == LastTurn(polls[0]);
    }
  }

  // ----- The demultiplexer -----

  /** The demultiplexer, and the error number kept by set_voderrno. */
  class Nexus {
    const air: Broadcast
    var opens: nat
    var channel: Channel
    var polls: seq<Poll>
    var voderrno: VodErrno
    var log: seq<Event>

    constructor (air: Broadcast)
      ensures this.air == air && opens == 0 && voderrno == ErrUnknown && log == []
    {
      this.air := air;
      opens, channel, polls, voderrno, log := 0, Channel(false, []), [], ErrUnknown, [];
    }

    /** Calls, in this order, of which the model keeps only that they were made. */
    method Note(es: seq<Event>)
      modifies `log
      ensures log == old(log) + es
    {
      log := log + es;
    }

    method OpenPidChannel(pid: Pid)
      modifies `log, `opens, `channel
      ensures log == old(log) + [OpenPid(pid)]
      ensures opens == old(opens) + 1 && channel == air(old(opens), pid)
    {
      channel := air(opens, pid);
      opens := opens + 1;
      Note([OpenPid(pid)]);
    }

    method StartMessage() returns (failed: bool)
      modifies `log, `polls
      ensures failed == !channel.starts
      ensures log == old(log) + [Start(channel.starts)]
      ensures polls == if channel.starts then channel.polls else old(polls)
    {
      failed := !channel.starts;
      if !failed { polls := channel.polls; }
      Note([Start(channel.starts)]);
    }

    method SetVoderrno(e: VodErrno)
      modifies `log, `voderrno
      ensures voderrno == e && log == old(log) + [SetErrno(e)]
    {
      voderrno := e;
      Note([SetErrno(e)]);
    }

    /**
     * The two message loops up to the section: get a buffer, and when there is none wait
     * for the event and try again.
     */
    method AwaitSection() returns (arrival: Arrival)
      modifies `log, `polls, `voderrno
      ensures arrival == Await(old(polls)).arrival
      ensures log == old(log) + Await(old(polls)).log
      ensures voderrno == if arrival.Lost? then ErrDemux else old(voderrno)
    {
      while polls != []
        invariant Await(polls).arrival == Await(old(polls)).arrival
        invariant log + Await(polls).log == old(log) + Await(old(polls)).log
        invariant voderrno == old(voderrno)
        decreases |polls|
      {
        var poll := polls[0];
        polls := polls[1..];
        Note([GetBuffer(LengthGot(poll))]);
        match poll {
          case BufferFailed =>
            SetVoderrno(ErrDemux);
            return Lost(2);
          case NothingYet(waitOk) =>
            Note([Wait]);
            if !waitOk {
              SetVoderrno(ErrDemux);
              return Lost(3);
            }
          case Delivered(section) =>
            return Got(section);
        }
      }
      arrival := Nothing;
    }
  }

  // ----- The run -----

  datatype Pids = Pids(video: int, audio: int, pcr: int)

  /** The three out-pointers. */
  class PidOut {
    var vpid: int
    var apid: int
    var pcr: int
  }

  /** The wait on a started channel brings section `s`. */
  ghost predicate Brings(ch: Channel, s: seq<byte>) {
    ch.starts && FirstOutcome(ch.polls, Delivered(s))
  }

  /** The program association section that is brought names PID `pid` for the program, or none if -1. */
  ghost predicate Names(air: Broadcast, pnID: word, pid: int) {
    exists s :: Brings(air(0, 0), s) && WholeSection(s) && IsFirstMatch(Candidates(s), pnID, pid)
  }

  ghost predicate PatWhole(air: Broadcast) {
    forall s: seq<byte> :: Brings(air(0, 0), s) ==> WholeSection(s)
  }

  ghost predicate PmtWhole(air: Broadcast, pid: Pid) {
    forall s: seq<byte> :: Brings(air(1, pid), s) ==> WholePmt(s)
  }

  /**
   * The sections a run is brought, on PID 0 and on the PID it finds there, are whole, as
   * the section filter and message size are there to assure.
   */
  ghost predicate DeliversWhole(air: Broadcast, pnID: word) {
    PatWhole(air) && forall pid: Pid :: Names(air, pnID, pid) ==> PmtWhole(air, pid)
  }

  lemma GotIsBrought(ch: Channel)
    requires ch.starts && Await(ch.polls).arrival.Got?
    ensures Brings(ch, Await(ch.polls).arrival.section)
  {
    AwaitIff(ch.polls);
  }

  function PidsOf(s: seq<byte>): Pids
    requires WholePmt(s)
  {
    var chosen := Choose(Entries(s));
    Pids(chosen.video, chosen.audio, Low13(Read16(s, 8)))
  }

  datatype Run = Run(exit: Exit, pids: Pids, log: seq<Event>)

  function RunPmt(air: Broadcast, pid: Pid, before: Pids): Run
    requires PmtWhole(air, pid)
  {
    var ch := air(1, pid);
    if !ch.starts then Run(Returned(5), before, [OpenPid(pid), Start(false), SetErrno(ErrDemux)])
    else
      var a := Await(ch.polls);
      var log := [OpenPid(pid), Start(true)] + a.log;
      match a.arrival
      case Nothing => Run(StillWaiting, before, log)
      case Lost(code) => Run(Returned(code), before, log)
      case Got(s) =>
        GotIsBrought(ch);
        Run(Returned(0), PidsOf(s), log + [ReadComplete(MessageLength(s)), Stop, CloseMessage, ClosePid])
  }

  datatype PatRun = Found(pid: Pid, log: seq<Event>) | Ended(exit: Exit, log: seq<Event>)

  function RunPat(air: Broadcast, pnID: word): (run: PatRun)
    requires PatWhole(air)
    ensures run.Found? ==> Names(air, pnID, run.pid)
  {
    var ch := air(0, 0);
    if !ch.starts then Ended(Returned(1), [OpenPid(0), OpenMessage, Start(false), SetErrno(ErrDemux)])
    else
      var a := Await(ch.polls);
      var log := [OpenPid(0), OpenMessage, Start(true)] + a.log;
      match a.arrival
      case Nothing => Ended(StillWaiting, log)
      case Lost(code) => Ended(Returned(code), log)
      case Got(s) =>
        GotIsBrought(ch);
        var log := log + [ReadComplete(MessageLength(s))];
        var pid := FirstMatch(Candidates(s), pnID);
        if pid < 0 then Ended(Returned(4), log + [SetErrno(ErrNoPmt)])
        else Found(pid, log + [Stop, ClosePid])
  }

  function RunFrom(air: Broadcast, pnID: word, before: Pids): Run
    requires DeliversWhole(air, pnID)
  {
    match RunPat(air, pnID)
    case Ended(exit, log) => Run(exit, before, log)
    case Found(pid, log) =>
      var pmt := RunPmt(air, pid, before);
      pmt.(log := log + pmt.log)
  }

  /** The error number left behind, given the one there was. */
  function ErrnoAfter(exit: Exit, before: VodErrno): VodErrno {
    match exit
    case StillWaiting => before
    case Returned(code) => if code == 0 then before else if code == 4 then ErrNoPmt else ErrDemux
  }

  lemma LogsConcatenate(a: seq<Event>, b: seq<Event>, c: seq<Event>)
    ensures (a + b) + c == a + (b + c)
  {
  }

  /** From the second NEXUS_PidChannel_Open on. */
  method ParsePmt(nx: Nexus, outs: PidOut, vodPmtPid: Pid) returns (exit: Exit)
    requires nx.opens == 1 && PmtWhole(nx.air, vodPmtPid)
    modifies nx, outs
    ensures var run := RunPmt(nx.air, vodPmtPid, Pids(old(outs.vpid), old(outs.apid), old(outs.pcr)));
            && exit == run.exit
            && outs.vpid == run.pids.video && outs.apid == run.pids.audio && outs.pcr == run.pids.pcr
            && nx.log == old(nx.log) + run.log
    ensures nx.voderrno == ErrnoAfter(exit, old(nx.voderrno))
  {
    nx.OpenPidChannel(vodPmtPid);
    var failed := nx.StartMessage();
    ghost var begun := [OpenPid(vodPmtPid), Start(!failed)];
    assert nx.log == old(nx.log) + begun;
    if failed {
      nx.SetVoderrno(ErrDemux);
      LogsConcatenate(old(nx.log), begun, [SetErrno(ErrDemux)]);
      return Returned(5);
    }
    var arrival := nx.AwaitSection();
    ghost var waited := Await(nx.channel.polls).log;
    LogsConcatenate(old(nx.log), begun, waited);
    if arrival.Nothing? { return StillWaiting; }
    if arrival.Lost? { return Returned(arrival.code); }
    GotIsBrought(nx.channel);
    var pmtBuffer := arrival.section;
    outs.pcr, outs.vpid, outs.apid := FindStreamPids(pmtBuffer);
    var closing := [ReadComplete(MessageLength(pmtBuffer)), Stop, CloseMessage, ClosePid];
    nx.Note(closing);
    LogsConcatenate(old(nx.log), begun + waited, closing);
    return Returned(0);
  }

  /** From the first NEXUS_PidChannel_Open to its close. */
  method ParsePat(nx: Nexus, pnID: word) returns (ended: bool, exit: Exit, vodPmtPid: int)
    requires nx.opens == 0 && PatWhole(nx.air)
    modifies nx
    ensures var run := RunPat(nx.air, pnID);
            && ended == run.Ended?
            && (if ended then exit == run.exit else vodPmtPid == run.pid)
            && nx.log == old(nx.log) + run.log
    ensures nx.opens == 1
    ensures nx.voderrno == if ended then ErrnoAfter(exit, old(nx.voderrno)) else old(nx.voderrno)
  {
    vodPmtPid := -1;
    nx.OpenPidChannel(0);
    nx.Note([OpenMessage]);
    var failed := nx.StartMessage();
    ghost var begun := [OpenPid(0), OpenMessage, Start(!failed)];
    assert nx.log == old(nx.log) + begun;
    if failed {
      nx.SetVoderrno(ErrDemux);
      LogsConcatenate(old(nx.log), begun, [SetErrno(ErrDemux)]);
      return true, Returned(1), vodPmtPid;
    }
    var arrival := nx.AwaitSection();
    ghost var waited := Await(nx.channel.polls).log;
    LogsConcatenate(old(nx.log), begun, waited);
    if arrival.Nothing? { return true, StillWaiting, vodPmtPid; }
    if arrival.Lost? { return true, Returned(arrival.code), vodPmtPid; }
    GotIsBrought(nx.channel);
    var buffer := arrival.section;
    vodPmtPid := FindPmtPid(buffer, pnID);
    nx.Note([ReadComplete(MessageLength(buffer))]);
    ghost var read := begun + waited + [ReadComplete(MessageLength(buffer))];
    LogsConcatenate(old(nx.log), begun + waited, [ReadComplete(MessageLength(buffer))]);
    if vodPmtPid < 0 {
      nx.SetVoderrno(ErrNoPmt);
      LogsConcatenate(old(nx.log), read, [SetErrno(ErrNoPmt)]);
      return true, Returned(4), vodPmtPid;
    }
    nx.Note([Stop, ClosePid]);
    LogsConcatenate(old(nx.log), read, [Stop, ClosePid]);
    return false, Returned(0), vodPmtPid;
  }

  method IpqamPidParser(nx: Nexus, outs: PidOut, pnID: word) returns (exit: Exit)
    requires nx.opens == 0 && DeliversWhole(nx.air, pnID)
    modifies nx, outs
    ensures var run := RunFrom(nx.air, pnID, Pids(old(outs.vpid), old(outs.apid), old(outs.pcr)));
            && exit == run.exit
            && outs.vpid == run.pids.video && outs.apid == run.pids.audio && outs.pcr == run.pids.pcr
            && nx.log == old(nx.log) + run.log
    ensures nx.voderrno == ErrnoAfter(exit, old(nx.voderrno))
  {
    var ended, code, vodPmtPid := ParsePat(nx, pnID);
    if ended { return code; }
    ghost var pat, pmt := RunPat(nx.air, pnID), RunPmt(nx.air, vodPmtPid, Pids(outs.vpid, outs.apid, outs.pcr));
    LogsConcatenate(old(nx.log), pat.log, pmt.log);
    exit := ParsePmt(nx, outs, vodPmtPid);
  }
}

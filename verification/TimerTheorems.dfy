/**
 * The timer table over whole runs of operations from the all-dead table: which timers are
 * pending, which handler calls are made and how often, and how little the moments of
 * polling matter.
 */
module TimerTheorems {
  import opened TimerTable

  function Blank(): seq<Slot> { seq(MAX_TIMER_HANDLER, _ => Slot(false, 0, 0, 0, 0)) }

  function Front(ops: seq<Op>): seq<Op>
    requires ops != []
  {
    ops[..|ops| - 1]
  }

  /** The slots after a run, and the calls made during it. */
  function Run(ops: seq<Op>): (slots: seq<Slot>)
    ensures |slots| == MAX_TIMER_HANDLER
  {
    if ops == [] then Blank() else SlotsAfter(ops[|ops| - 1], Run(Front(ops)))
  }

  function Log(ops: seq<Op>): seq<Call> {
    if ops == [] then [] else Log(Front(ops)) + Calls(ops[|ops| - 1], Run(Front(ops)))
  }

  // ----- One sweep -----

  /** Live slots carry their own index as event ID. */
  predicate Labelled(slots: seq<Slot>) {
    forall i :: 0 <= i < |slots| && slots[i].alive ==> slots[i].eventID == i
  }

  lemma {:induction false} RunLabelled(ops: seq<Op>)
    ensures Labelled(Run(ops))
  {
    if ops != [] {
      RunLabelled(Front(ops));
    }
  }

  function CallsFor(calls: seq<Call>, e: nat): nat {
    if calls == [] then 0
    else CallsFor(calls[..|calls| - 1], e) + if calls[|calls| - 1].eventID == e then 1 else 0
  }

  lemma {:induction false} CallsForAppend(a: seq<Call>, b: seq<Call>, e: nat)
    ensures CallsFor(a + b, e) == CallsFor(a, e) + CallsFor(b, e)
  {
    if b == [] {
      assert a + b == a;
    } else {
      CallsForAppend(a, b[..|b| - 1], e);
      assert (a + b)[..|a + b| - 1] == a + b[..|b| - 1];
    }
  }

  lemma CallOfCounts(op: Op, i: nat, s: Slot, e: nat)
    requires s.alive ==> s.eventID == i
    ensures CallsFor(CallOf(op, i, s), e) == if i == e && Fires(op, i, s) then 1 else 0
  {
    var calls := CallOf(op, i, s);
    assert |calls| == 1 ==> calls[..0] == [];
  }

  lemma {:induction false} SweepCounts(op: Op, slots: seq<Slot>, n: nat, e: nat)
    requires n <= |slots| && Labelled(slots)
    ensures CallsFor(CallsUpTo(op, slots, n), e) == if e < n && Fires(op, e, slots[e]) then 1 else 0
  {
    if n > 0 {
      SweepCounts(op, slots, n - 1, e);
      CallsForAppend(CallsUpTo(op, slots, n - 1), CallOf(op, n - 1, slots[n - 1]), e);
      CallOfCounts(op, n - 1, slots[n - 1], e);
    }
  }

  /** The call is that of a slot the operation fires. */
  predicate IsCallOf(c: Call, op: Op, slots: seq<Slot>, n: nat)
    requires n <= |slots|
  {
    var i := c.eventID;
    i < n && Fires(op, i, slots[i]) && c == Call(i, slots[i].th, slots[i].context)
  }

  predicate Increasing(calls: seq<Call>) {
    forall k, l :: 0 <= k < l < |calls| ==> calls[k].eventID < calls[l].eventID
  }

  lemma {:induction false} SweepCalls(op: Op, slots: seq<Slot>, n: nat)
    requires n <= |slots| && Labelled(slots)
    ensures Increasing(CallsUpTo(op, slots, n))
    ensures forall c :: c in CallsUpTo(op, slots, n) ==> IsCallOf(c, op, slots, n)
  {
    if n > 0 {
      SweepCalls(op, slots, n - 1);
      var front, call := CallsUpTo(op, slots, n - 1), CallOf(op, n - 1, slots[n - 1]);
      var calls: seq<Call> := front + call;
      assert forall c :: c in calls ==> c in front || c in call;
      forall k, l | 0 <= k < l < |calls|
        ensures calls[k].eventID < calls[l].eventID
      {
        assert calls[k] == front[k] && front[k] in front;
      }
    }
  }

  /**
   * A poll or flush calls exactly the handlers of the slots it fires, each once and with
   * its own event ID and context, in increasing slot order; afterwards exactly the live
   * slots it did not fire are live, and all else about every slot is as before.
   */
  lemma SweepExact(op: Op, slots: seq<Slot>, i: nat)
    requires op.Poll? || op.ExecAll?
    requires Labelled(slots) && i < |slots|
    ensures var calls := Calls(op, slots);
            && Increasing(calls)
            && (forall c :: c in calls ==> IsCallOf(c, op, slots, |slots|))
            && CallsFor(calls, i) == if Fires(op, i, slots[i]) then 1 else 0
    ensures var s, s' := slots[i], SlotsAfter(op, slots)[i];
            && (s'.alive <==> s.alive && !Fires(op, i, s))
            && s' == s.(alive := s'.alive)
  {
    SweepCalls(op, slots, |slots|);
    SweepCounts(op, slots, |slots|, i);
  }

  // ----- Which timers are pending, told from the operations alone -----

  predicate Registers(op: Op, e: nat) { op.Add? && op.event == e }

  /** The operation makes a timer of event `e` with this deadline due. */
  predicate Expires(op: Op, e: nat, deadline: int) {
    (op.Poll? && deadline <= op.now) || (op.ExecAll? && e != CHECK_UPLOAD_LOGS)
  }

  /** The operation puts an end to a timer of event `e` with this deadline. */
  predicate Ends(op: Op, e: nat, deadline: int) {
    op.Init? || Registers(op, e) || op == Del(e) || Expires(op, e, deadline)
  }

  /** Operation `k` registered a timer for `e`, and nothing since has ended it. */
  ghost predicate Pending(ops: seq<Op>, k: nat, e: nat) {
    && e < MAX_TIMER_HANDLER && k < |ops| && Registers(ops[k], e)
    && forall j: nat :: k < j < |ops| ==> !Ends(ops[j], e, ops[k].timer)
  }

  function SlotOf(op: Op): Slot
    requires op.Add?
  {
    Slot(true, op.event, op.timer, op.th, op.context)
  }

  lemma {:induction false} PendingIsLive(ops: seq<Op>, k: nat, e: nat)
    requires Pending(ops, k, e)
    ensures Run(ops)[e] == SlotOf(ops[k])
    decreases |ops|
  {
    if k < |ops| - 1 {
      assert !Ends(ops[|ops| - 1], e, ops[k].timer);
      PendingIsLive(Front(ops), k, e);
    }
  }

  lemma {:induction false} LiveIsPending(ops: seq<Op>, e: nat) returns (k: nat)
    requires e < MAX_TIMER_HANDLER && Run(ops)[e].alive
    ensures Pending(ops, k, e)
    decreases |ops|
  {
    var last := ops[|ops| - 1];
    if Registers(last, e) {
      k := |ops| - 1;
    } else {
      k := LiveIsPending(Front(ops), e);
      PendingIsLive(Front(ops), k, e);
    }
  }

  /** A slot is live exactly when a registration is pending for it, and holds that registration. */
  lemma LiveIffPending(ops: seq<Op>, e: nat)
    requires e < MAX_TIMER_HANDLER
    ensures Run(ops)[e].alive <==> exists k: nat :: Pending(ops, k, e)
    ensures forall k: nat :: Pending(ops, k, e) ==> Run(ops)[e] == SlotOf(ops[k])
  {
    if Run(ops)[e].alive {
      var k := LiveIsPending(ops, e);
    }
    forall k: nat | Pending(ops, k, e) ensures Run(ops)[e] == SlotOf(ops[k]) {
      PendingIsLive(ops, k, e);
    }
  }

  /** Operation `j` calls the handler that operation `k` registered for event `e`. */
  ghost predicate FiresRegistration(ops: seq<Op>, j: nat, k: nat, e: nat) {
    j < |ops| && Pending(ops[..j], k, e) && Expires(ops[j], e, ops[k].timer)
  }

  lemma FiresSlotIff(ops: seq<Op>, j: nat, e: nat)
    requires j < |ops| && e < MAX_TIMER_HANDLER
    ensures Fires(ops[j], e, Run(ops[..j])[e]) <==> exists k: nat :: FiresRegistration(ops, j, k, e)
    ensures forall k: nat :: FiresRegistration(ops, j, k, e) ==> Run(ops[..j])[e] == SlotOf(ops[k])
  {
    var slots := Run(ops[..j]);
    LiveIffPending(ops[..j], e);
    if Fires(ops[j], e, slots[e]) {
      var k: nat :| Pending(ops[..j], k, e);
      assert FiresRegistration(ops, j, k, e);
    }
    forall k: nat | FiresRegistration(ops, j, k, e)
      ensures Fires(ops[j], e, slots[e]) && slots[e] == SlotOf(ops[k])
    {
      assert slots[e] == SlotOf(ops[..j][k]);
    }
  }

  /**
   * Operation `j` calls a handler for `e` exactly when it makes due a registration still
   * pending, and then it calls that registration's handler with that registration's context.
   */
  lemma FiresIff(ops: seq<Op>, j: nat, e: nat)
    requires j < |ops| && e < MAX_TIMER_HANDLER
    ensures var calls := Calls(ops[j], Run(ops[..j]));
            && (0 < CallsFor(calls, e) <==> exists k: nat :: FiresRegistration(ops, j, k, e))
            && (forall c, k: nat :: c in calls && c.eventID == e && FiresRegistration(ops, j, k, e)
                 ==> c == Call(e, ops[k].th, ops[k].context))
  {
    var slots := Run(ops[..j]);
    RunLabelled(ops[..j]);
    SweepCalls(ops[j], slots, |slots|);
    SweepCounts(ops[j], slots, |slots|, e);
    FiresSlotIff(ops, j, e);
  }

  /** Once fired, a registration is never pending again. */
  lemma FiredIsGone(ops: seq<Op>, i: nat, k: nat, e: nat, j: nat)
    requires FiresRegistration(ops, i, k, e) && i < j <= |ops|
    ensures !Pending(ops[..j], k, e)
  {
    assert ops[..j][k] == ops[..i][k] == ops[k];
    assert Ends(ops[..j][i], e, ops[..j][k].timer);
  }

  /** No registration is fired twice. */
  lemma FiresAtMostOnce(ops: seq<Op>, i: nat, j: nat, k: nat, e: nat)
    requires FiresRegistration(ops, i, k, e) && FiresRegistration(ops, j, k, e)
    ensures i == j
  {
    if i < j {
      FiredIsGone(ops, i, k, e, j);
    } else if j < i {
      FiredIsGone(ops, j, k, e, i);
    }
  }

  // ----- Conservation -----

  datatype Fate = Deleted | Overwritten | Discarded

  /** The operation ends the live timer of `e` without calling its handler. */
  predicate Meets(op: Op, e: nat, live: bool, fate: Fate) {
    live && match fate
            case Deleted => op == Del(e)
            case Overwritten => Registers(op, e)
            case Discarded => op.Init?
  }

  function One(b: bool): nat { if b then 1 else 0 }

  function Adds(ops: seq<Op>, e: nat): nat {
    if ops == [] then 0
    else Adds(Front(ops), e) + One(Registers(ops[|ops| - 1], e))
  }

  function CountFate(ops: seq<Op>, e: nat, fate: Fate): nat
    requires e < MAX_TIMER_HANDLER
  {
    if ops == [] then 0
    else
      CountFate(Front(ops), e, fate) + One(Meets(ops[|ops| - 1], e, Run(Front(ops))[e].alive, fate))
  }

  /** What one operation adds, calls and ends for a slot, against whether it is live. */
  lemma SlotConserved(op: Op, e: nat, s: Slot)
    ensures One(s.alive) + One(Registers(op, e))
         == One(SlotAfter(op, e, s).alive) + One(Fires(op, e, s)) + One(Meets(op, e, s.alive, Deleted))
            + One(Meets(op, e, s.alive, Overwritten)) + One(Meets(op, e, s.alive, Discarded))
  {
  }

  /**
   * Over every run, the timers added for an event are those whose handler was called, those
   * deleted while live, those overwritten while live, those dropped by a later
   * initialization, and the one, if any, still pending.
   */
  lemma {:induction false} TimersConserved(ops: seq<Op>, e: nat)
    requires e < MAX_TIMER_HANDLER
    ensures Adds(ops, e)
         == CallsFor(Log(ops), e) + CountFate(ops, e, Deleted) + CountFate(ops, e, Overwritten)
            + CountFate(ops, e, Discarded) + One(Run(ops)[e].alive)
  {
    if ops != [] {
      var slots, last := Run(Front(ops)), ops[|ops| - 1];
      TimersConserved(Front(ops), e);
      RunLabelled(Front(ops));
      SweepCounts(last, slots, |slots|, e);
      CallsForAppend(Log(Front(ops)), Calls(last, slots), e);
      SlotConserved(last, e, slots[e]);
    }
  }

  /** Events beyond the table are neither kept nor called. */
  lemma {:induction false} OutOfRangeNeverCalled(ops: seq<Op>, e: nat)
    requires MAX_TIMER_HANDLER <= e
    ensures CallsFor(Log(ops), e) == 0
  {
    if ops != [] {
      OutOfRangeNeverCalled(Front(ops), e);
      RunLabelled(Front(ops));
      SweepCounts(ops[|ops| - 1], Run(Front(ops)), MAX_TIMER_HANDLER, e);
      CallsForAppend(Log(Front(ops)), Calls(ops[|ops| - 1], Run(Front(ops))), e);
    }
  }

  // ----- The moments of polling do not matter -----

  function Max(a: int, b: int): int { if a < b then b else a }

  function Latest(times: seq<int>): int
    requires times != []
  {
    var last := times[|times| - 1];
    if |times| == 1 then last else Max(Latest(times[..|times| - 1]), last)
  }

  function AfterPolls(slots: seq<Slot>, times: seq<int>): seq<Slot> {
    if times == [] then slots
    else SlotsAfter(Poll(times[|times| - 1]), AfterPolls(slots, times[..|times| - 1]))
  }

  function CallsOfPolls(slots: seq<Slot>, times: seq<int>): seq<Call> {
    if times == [] then []
    else
      var front := times[..|times| - 1];
      CallsOfPolls(slots, front) + Calls(Poll(times[|times| - 1]), AfterPolls(slots, front))
  }

  /** How often call `c` is made by a sweep over the first `n` slots. */
  function Times(op: Op, slots: seq<Slot>, n: nat, c: Call): nat
    requires n <= |slots|
  {
    if n == 0 then 0 else Times(op, slots, n - 1, c) + One(c in CallOf(op, n - 1, slots[n - 1]))
  }

  lemma OneMoreCall(calls: seq<Call>, call: seq<Call>, c: Call)
    requires |call| <= 1
    ensures multiset(calls + call)[c] == multiset(calls)[c] + One(c in call)
  {
    if call == [] {
      assert calls + call == calls;
    } else {
      assert call == [call[0]];
    }
  }

  lemma {:induction false} TimesCounts(op: Op, slots: seq<Slot>, n: nat, c: Call)
    requires n <= |slots|
    ensures multiset(CallsUpTo(op, slots, n))[c] == Times(op, slots, n, c)
  {
    if n > 0 {
      TimesCounts(op, slots, n - 1, c);
      OneMoreCall(CallsUpTo(op, slots, n - 1), CallOf(op, n - 1, slots[n - 1]), c);
    }
  }

  lemma {:induction false} TwoPolls(slots: seq<Slot>, t: int, u: int, n: nat, c: Call)
    requires n <= |slots|
    ensures Times(Poll(t), slots, n, c) + Times(Poll(u), SlotsAfter(Poll(t), slots), n, c)
         == Times(Poll(Max(t, u)), slots, n, c)
  {
    if n > 0 {
      TwoPolls(slots, t, u, n - 1, c);
    }
  }

  lemma TwoPollsMakeTheCallsOfOne(slots: seq<Slot>, t: int, u: int)
    ensures multiset(Calls(Poll(t), slots)) + multiset(Calls(Poll(u), SlotsAfter(Poll(t), slots)))
         == multiset(Calls(Poll(Max(t, u)), slots))
  {
    forall c: Call
      ensures multiset(Calls(Poll(t), slots))[c] + multiset(Calls(Poll(u), SlotsAfter(Poll(t), slots)))[c]
           == multiset(Calls(Poll(Max(t, u)), slots))[c]
    {
      TimesCounts(Poll(t), slots, |slots|, c);
      TimesCounts(Poll(u), SlotsAfter(Poll(t), slots), |slots|, c);
      TimesCounts(Poll(Max(t, u)), slots, |slots|, c);
      TwoPolls(slots, t, u, |slots|, c);
    }
  }

  lemma SlotsPolledTwice(slots: seq<Slot>, t: int, u: int)
    ensures SlotsAfter(Poll(u), SlotsAfter(Poll(t), slots)) == SlotsAfter(Poll(Max(t, u)), slots)
  {
  }

  /**
   * Polls at any times, with no other operation between them, come to what one poll at the
   * latest of the times does: the same slots, and the same calls, each as often.
   */
  lemma {:induction false} PollScheduleIndependent(slots: seq<Slot>, times: seq<int>)
    requires times != []
    ensures AfterPolls(slots, times) == SlotsAfter(Poll(Latest(times)), slots)
    ensures multiset(CallsOfPolls(slots, times)) == multiset(Calls(Poll(Latest(times)), slots))
  {
    var front, last := times[..|times| - 1], times[|times| - 1];
    if front == [] {
      assert CallsOfPolls(slots, times) == [] + Calls(Poll(last), slots);
    } else {
      PollScheduleIndependent(slots, front);
      SlotsPolledTwice(slots, Latest(front), last);
      TwoPollsMakeTheCallsOfOne(slots, Latest(front), last);
    }
  }

  function Polls(times: seq<int>): (ops: seq<Op>)
    ensures |ops| == |times|
  {
    seq(|times|, i requires 0 <= i < |times| => Poll(times[i]))
  }

  lemma PollsFront(ops: seq<Op>, times: seq<int>)
    requires times != []
    ensures var run, front := ops + Polls(times), times[..|times| - 1];
            run != [] && run[|run| - 1] == Poll(times[|times| - 1]) && Front(run) == ops + Polls(front)
  {
  }

  /** Polls at the end of any run are polls of the slots it leaves. */
  lemma {:induction false} PollsEndRun(ops: seq<Op>, times: seq<int>)
    ensures Run(ops + Polls(times)) == AfterPolls(Run(ops), times)
    decreases |times|
  {
    if times == [] {
      assert ops + Polls(times) == ops;
    } else {
      PollsFront(ops, times);
      PollsEndRun(ops, times[..|times| - 1]);
    }
  }

  lemma CallsConcatenate(a: seq<Call>, b: seq<Call>, c: seq<Call>)
    ensures (a + b) + c == a + (b + c)
  {
  }

  /** And the calls they make come behind those of the run. */
  lemma {:induction false} PollsEndLog(ops: seq<Op>, times: seq<int>)
    ensures Log(ops + Polls(times)) == Log(ops) + CallsOfPolls(Run(ops), times)
    decreases |times|
  {
    if times == [] {
      assert ops + Polls(times) == ops;
    } else {
      var front, last := times[..|times| - 1], times[|times| - 1];
      PollsFront(ops, times);
      PollsEndRun(ops, front);
      PollsEndLog(ops, front);
      CallsConcatenate(Log(ops), CallsOfPolls(Run(ops), front), Calls(Poll(last), AfterPolls(Run(ops), front)));
    }
  }

  /** In any run, polls with nothing between them may be put together into one at the latest time. */
  lemma PollsInRunIndependent(ops: seq<Op>, times: seq<int>)
    requires times != []
    ensures Run(ops + Polls(times)) == Run(ops + [Poll(Latest(times))])
    ensures multiset(Log(ops + Polls(times))) == multiset(Log(ops + [Poll(Latest(times))]))
  {
    var one := [Latest(times)];
    PollsEndRun(ops, times);
    PollsEndRun(ops, one);
    PollsEndLog(ops, times);
    PollsEndLog(ops, one);
    assert Polls(one) == [Poll(Latest(times))];
    PollScheduleIndependent(Run(ops), times);
    PollScheduleIndependent(Run(ops), one);
  }

  // ----- The operations, with the events of the header -----

  /** Only polls and flushes call handlers. */
  lemma {:induction false} QuietOps(op: Op, slots: seq<Slot>, n: nat)
    requires n <= |slots|
    ensures !op.Poll? && !op.ExecAll? ==> CallsUpTo(op, slots, n) == []
  {
    if n > 0 {
      QuietOps(op, slots, n - 1);
    }
  }

  /** Initialization leaves no timer and labels every slot with the null event. */
  lemma InitEmptiesTable(ops: seq<Op>)
    ensures forall s :: s in Run(ops + [Init]) ==> !s.alive && s.eventID == 4
    ensures Log(ops + [Init]) == Log(ops)
  {
    assert Front(ops + [Init]) == ops;
    QuietOps(Init, Run(ops), 8);
  }

  lemma AddTouchesOneSlot(slots: seq<Slot>, op: Op)
    requires |slots| == 8 && op.Add?
    ensures SlotsAfter(op, slots)
         == if op.event < 8 then slots[op.event := Slot(true, op.event, op.timer, op.th, op.context)] else slots
  {
  }

  lemma DelTouchesOneSlot(slots: seq<Slot>, e: nat)
    requires |slots| == 8
    ensures SlotsAfter(Del(e), slots) == if e < 8 then slots[e := slots[e].(alive := false)] else slots
  {
  }

  /** Of eight events an Add touches its own slot, and beyond them nothing. */
  lemma AddOnRun(ops: seq<Op>, op: Op)
    requires op.Add?
    ensures |Run(ops)| == 8
    ensures Run(ops + [op])
         == if op.event < 8 then Run(ops)[op.event := Slot(true, op.event, op.timer, op.th, op.context)] else Run(ops)
  {
    assert Front(ops + [op]) == ops;
    AddTouchesOneSlot(Run(ops), op);
  }

  /** And so does a Del. */
  lemma DelOnRun(ops: seq<Op>, e: nat)
    ensures |Run(ops)| == 8
    ensures Run(ops + [Del(e)]) == if e < 8 then Run(ops)[e := Run(ops)[e].(alive := false)] else Run(ops)
  {
    assert Front(ops + [Del(e)]) == ops;
    DelTouchesOneSlot(Run(ops), e);
  }

  /** A flush leaves live the timer of event 3, the log upload, and no other. */
  lemma FlushSparesLogUpload(ops: seq<Op>, e: nat)
    requires e < 8
    ensures Run(ops + [ExecAll])[e] == if e == 3 then Run(ops)[e] else Run(ops)[e].(alive := false)
  {
    assert Front(ops + [ExecAll]) == ops;
  }

  // ----- Runs of the table object -----

  /** Any sequence of operations on a fresh table leaves the slots and the log the theorems speak of. */
  method Perform(ops: seq<Op>) returns (table: Table)
    ensures fresh(table) && table.Valid()
    ensures table.functionHandler[..] == Run(ops) && table.log == Log(ops)
  {
    table := new Table();
    assert table.functionHandler[..] == Run([]);
    for i := 0 to |ops|
      invariant table.Valid() && fresh(table) && fresh(table.functionHandler)
      invariant table.functionHandler[..] == Run(ops[..i]) && table.log == Log(ops[..i])
    {
      assert Front(ops[..i + 1]) == ops[..i];
      ghost var slots := table.functionHandler[..];
      QuietOps(ops[i], slots, |slots|);
      match ops[i] {
        case Init => table.InitJDHandler();
        case Add(event, timer, th, context) => table.AddJDTimerhandler(event, timer, th, context);
        case Del(event) => table.DelJDTimerhandler(event);
        case Poll(now) => table.PollJDTimerhandler(now);
        case ExecAll => table.ExecAllJDhandler();
      }
    }
    assert ops[..|ops|] == ops;
  }

}

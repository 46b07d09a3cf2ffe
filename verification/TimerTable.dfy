/**
 * The timer table of timer_handler: one slot per event, each holding a one-shot timer.
 * Every operation holds the one mutex throughout, so each is a single step here; calling
 * a handler is recorded in a log.
 */
module TimerTable {
  const MAX_TIMER_HANDLER := 8
  const CHECK_UPLOAD_LOGS := 3
  const EVENT_NULL := 4

  /** Handlers and contexts are pointers the table only passes on. */
  datatype Slot = Slot(alive: bool, eventID: nat, timer: int, th: int, context: int)

  datatype Call = Call(eventID: nat, th: int, context: int)

  datatype Op =
    | Init
    | Add(event: nat, timer: int, th: int, context: int)
    | Del(event: nat)
    | Poll(now: int)
    | ExecAll

  // ----- What each operation does to the slots, and which handlers it calls -----

  /** Slot `i` is fired by the operation. */
  predicate Fires(op: Op, i: nat, s: Slot) {
    match op
    case Poll(now) => s.alive && s.timer <= now
    case ExecAll => s.alive && i != CHECK_UPLOAD_LOGS
    case _ => false
  }

  function SlotAfter(op: Op, i: nat, s: Slot): Slot {
    match op
    case Init => s.(alive := false, eventID := EVENT_NULL)
    case Add(event, timer, th, context) =>
      if event == i then Slot(true, event, timer, th, context) else s
    case Del(event) => if event == i then s.(alive := false) else s
    case _ => if Fires(op, i, s) then s.(alive := false) else s
  }

  function SlotsAfter(op: Op, slots: seq<Slot>): (after: seq<Slot>)
    ensures |after| == |slots|
  {
    seq(|slots|, i requires 0 <= i < |slots| => SlotAfter(op, i, slots[i]))
  }

  function CallOf(op: Op, i: nat, s: Slot): seq<Call> {
    if Fires(op, i, s) then [Call(s.eventID, s.th, s.context)] else []
  }

  /** The handler calls of a sweep over the first `n` slots, in the order they are made. */
  function CallsUpTo(op: Op, slots: seq<Slot>, n: nat): seq<Call>
    requires n <= |slots|
  {
    if n == 0 then [] else CallsUpTo(op, slots, n - 1) + CallOf(op, n - 1, slots[n - 1])
  }

  function Calls(op: Op, slots: seq<Slot>): seq<Call> { CallsUpTo(op, slots, |slots|) }

  class Table {
    const functionHandler: array<Slot>
    ghost var log: seq<Call>

    constructor ()
      ensures Valid() && fresh(functionHandler)
      ensures forall i :: 0 <= i < MAX_TIMER_HANDLER ==> functionHandler[i] == Slot(false, 0, 0, 0, 0)
      ensures log == []
    {
      functionHandler := new Slot[MAX_TIMER_HANDLER](_ => Slot(false, 0, 0, 0, 0));
      log := [];
    }

    ghost predicate Valid() { functionHandler.Length == MAX_TIMER_HANDLER }

    method InitJDHandler()
      requires Valid()
      modifies functionHandler
      ensures functionHandler[..] == SlotsAfter(Init, old(functionHandler[..]))
    {
      for i := 0 to MAX_TIMER_HANDLER
        invariant forall j :: 0 <= j < i ==> functionHandler[j] == SlotAfter(Init, j, old(functionHandler[j]))
        invariant forall j :: i <= j < MAX_TIMER_HANDLER ==> functionHandler[j] == old(functionHandler[j])
      {
        functionHandler[i] := functionHandler[i].(alive := false, eventID := EVENT_NULL);
      }
    }

    method AddJDTimerhandler(event: nat, timer: int, handler: int, context: int)
      requires Valid()
      modifies functionHandler
      ensures functionHandler[..] == SlotsAfter(Add(event, timer, handler, context), old(functionHandler[..]))
    {
      if event >= MAX_TIMER_HANDLER {
        return;
      }
      functionHandler[event] := Slot(true, event, timer, handler, context);
    }

    method DelJDTimerhandler(event: nat)
      requires Valid()
      modifies functionHandler
      ensures functionHandler[..] == SlotsAfter(Del(event), old(functionHandler[..]))
    {
      if event >= MAX_TIMER_HANDLER {
        return;
      }
      functionHandler[event] := functionHandler[event].(alive := false);
    }

    /** Calls the handler of a slot and retires it. */
    method Fire(i: nat)
      requires Valid() && i < MAX_TIMER_HANDLER
      modifies functionHandler, `log
      ensures var s := old(functionHandler[i]);
              && functionHandler[i] == s.(alive := false)
              && log == old(log) + [Call(s.eventID, s.th, s.context)]
      ensures forall j :: 0 <= j < MAX_TIMER_HANDLER && j != i ==> functionHandler[j] == old(functionHandler[j])
    {
      var s := functionHandler[i];
      log := log + [Call(s.eventID, s.th, s.context)];
      functionHandler[i] := s.(alive := false);
    }

    method PollJDTimerhandler(timer: int)
      requires Valid()
      modifies functionHandler, `log
      ensures functionHandler[..] == SlotsAfter(Poll(timer), old(functionHandler[..]))
      ensures log == old(log) + Calls(Poll(timer), old(functionHandler[..]))
    {
      ghost var before := functionHandler[..];
      for i := 0 to MAX_TIMER_HANDLER
        invariant forall j :: 0 <= j < i ==> functionHandler[j] == SlotAfter(Poll(timer), j, before[j])
        invariant forall j :: i <= j < MAX_TIMER_HANDLER ==> functionHandler[j] == before[j]
        invariant log == old(log) + CallsUpTo(Poll(timer), before, i)
      {
        if functionHandler[i].alive {
          if timer >= functionHandler[i].timer {
            Fire(i);
          }
        }
      }
    }

    method ExecAllJDhandler()
      requires Valid()
      modifies functionHandler, `log
      ensures functionHandler[..] == SlotsAfter(ExecAll, old(functionHandler[..]))
      ensures log == old(log) + Calls(ExecAll, old(functionHandler[..]))
    {
      ghost var before := functionHandler[..];
      for i := 0 to MAX_TIMER_HANDLER
        invariant forall j :: 0 <= j < i ==> functionHandler[j] == SlotAfter(ExecAll, j, before[j])
        invariant forall j :: i <= j < MAX_TIMER_HANDLER ==> functionHandler[j] == before[j]
        invariant log == old(log) + CallsUpTo(ExecAll, before, i)
      {
        if functionHandler[i].alive && i != CHECK_UPLOAD_LOGS {
          Fire(i);
        }
      }
    }
  }
}

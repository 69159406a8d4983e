/** The driver's reaction to application events, as a pure function of its
    two latches: `active` (set when board-ready arms the deferred initialiser,
    cleared on power-down) and `initialized` (set when the main module reports
    ready). The driver's event handler is proved to follow `React`; the lemmas
    here say what any sequence of events does. */
module Lifecycle {
  import opened Platform

  /** The modules whose state events the driver can receive. */
  datatype ModuleId = Main | Board | Other(name: string)

  /** The two kinds of event the driver subscribes to. */
  datatype Event =
    | ModuleStateEvent(source: ModuleId, state: ModuleState)
    | PowerDownEvent

  const MAIN_READY: Event := ModuleStateEvent(Main, Ready)
  const BOARD_READY: Event := ModuleStateEvent(Board, Ready)

  /** The file-static `active` flag and the function-static `initialized` flag;
      both start out false. */
  datatype Latches = Latches(active: bool, initialized: bool)

  const START: Latches := Latches(false, false)

  /** What an event makes the driver do beyond updating its latches. */
  datatype Reaction =
    | Ignore
      /** Submit the deferred initialiser to the system work queue. */
    | QueueInit
      /** Run the wake-up register routine, then announce standby. */
    | EnterWakeup

  datatype Step = Step(latches: Latches, reaction: Reaction)

  /** One event. A main-ready event only sets `initialized`; a board-ready
      event submits the initialiser unless `active` is already set; a
      power-down event clears `active` and, if it was set, enters wake-up. */
  function React(l: Latches, e: Event): Step {
    match e
    case ModuleStateEvent(m, s) =>
      if m == Main && s == Ready then Step(l.(initialized := true), Ignore)
      else if m == Board && s == Ready then
        if !l.active then Step(l.(active := true), QueueInit) else Step(l, Ignore)
      else Step(l, Ignore)
    case PowerDownEvent =>
      if l.active then Step(l.(active := false), EnterWakeup) else Step(l, Ignore)
  }

  /** The latches after a sequence of events. */
  function Final(l: Latches, es: seq<Event>): Latches
    decreases |es|
  {
    if es == [] then l else Final(React(l, es[0]).latches, es[1..])
  }

  /** The reactions to a sequence of events, one per event. */
  function Reactions(l: Latches, es: seq<Event>): (rs: seq<Reaction>)
    decreases |es|
  {
    if es == [] then [] else [React(l, es[0]).reaction] + Reactions(React(l, es[0]).latches, es[1..])
  }

  function Count(rs: seq<Reaction>, r: Reaction): nat
    decreases |rs|
  {
    if rs == [] then 0 else (if rs[0] == r then 1 else 0) + Count(rs[1..], r)
  }

  function PowerDowns(es: seq<Event>): nat
    decreases |es|
  {
    if es == [] then 0 else (if es[0].PowerDownEvent? then 1 else 0) + PowerDowns(es[1..])
  }

  function Ind(b: bool): nat {
    if b then 1 else 0
  }

  /** Submissions and wake-up entries alternate: over any sequence of events,
      the initialiser is submitted exactly as often as wake-up is entered,
      corrected by how `active` started and ended. */
  lemma {:induction false} SubmitsBalanceWakeups(l: Latches, es: seq<Event>)
    ensures Count(Reactions(l, es), QueueInit) + Ind(l.active)
         == Count(Reactions(l, es), EnterWakeup) + Ind(Final(l, es).active)
    decreases |es|
  {
    if es != [] {
      var st := React(l, es[0]);
      SubmitsBalanceWakeups(st.latches, es[1..]);
      var rs := Reactions(l, es);
      assert rs[1..] == Reactions(st.latches, es[1..]);
    }
  }

  /** Wake-up is entered at most once per power-down event. */
  lemma {:induction false} WakeupsAtMostPowerDowns(l: Latches, es: seq<Event>)
    ensures Count(Reactions(l, es), EnterWakeup) <= PowerDowns(es)
    decreases |es|
  {
    if es != [] {
      var st := React(l, es[0]);
      WakeupsAtMostPowerDowns(st.latches, es[1..]);
      var rs := Reactions(l, es);
      assert rs[1..] == Reactions(st.latches, es[1..]);
    }
  }

  /** From the start state, the initialiser is submitted at most once more
      than there are power-down events; with no power-down event it is
      submitted at most once, however many board-ready events arrive. */
  lemma SubmitsBound(es: seq<Event>)
    ensures Count(Reactions(START, es), QueueInit) <= 1 + PowerDowns(es)
    ensures PowerDowns(es) == 0 ==> Count(Reactions(START, es), QueueInit) <= 1
  {
    SubmitsBalanceWakeups(START, es);
    WakeupsAtMostPowerDowns(START, es);
  }

  /** A power-down between two board-ready events re-arms the initialiser:
      it is submitted twice. */
  lemma ResubmitAfterPowerDown()
    ensures Reactions(START, [BOARD_READY, PowerDownEvent, BOARD_READY])
         == [QueueInit, EnterWakeup, QueueInit]
  {
    var es := [BOARD_READY, PowerDownEvent, BOARD_READY];
    var l1 := Latches(true, false);
    assert React(START, BOARD_READY) == Step(l1, QueueInit);
    assert React(l1, PowerDownEvent) == Step(START, EnterWakeup);
    assert es[1..] == [PowerDownEvent, BOARD_READY];
    assert es[1..][1..] == [BOARD_READY];
    assert Reactions(START, [BOARD_READY]) == [QueueInit];
    assert Reactions(l1, es[1..]) == [EnterWakeup, QueueInit];
  }

  /** `initialized` is set once a main-ready event has been seen and is never
      cleared, so a second main-ready event always finds it set. */
  lemma {:induction false} InitializedLatch(l: Latches, es: seq<Event>)
    ensures Final(l, es).initialized <==> l.initialized || MAIN_READY in es
    decreases |es|
  {
    if es != [] {
      InitializedLatch(React(l, es[0]).latches, es[1..]);
      assert MAIN_READY in es <==> es[0] == MAIN_READY || MAIN_READY in es[1..] by {
        assert es == [es[0]] + es[1..];
      }
    }
  }
}

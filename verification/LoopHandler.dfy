/**
  `OHOSLoopHandler`: one named timer task on the event handler keeps a libuv loop turning.

  After each trigger the handler asks libuv how long it may sleep and posts a delayed task for that
  moment.  The device build skips the post when the moment equals the last one it posted for; the
  emulator build always posts.  The model records every call on the event handler, and the pending timer
  tasks are what that record leaves queued.
*/
module LoopHandler {
  import opened Wrappers

  /** What happened to the named timer task on the event handler. */
  datatype Call = Posted(deadline: int) | Removed | Fired(deadline: int)

  /** The deadlines of the timer tasks still queued. */
  function Queue(calls: seq<Call>): multiset<int> {
    if calls == [] then multiset{}
    else After(Queue(calls[..|calls| - 1]), calls[|calls| - 1])
  }

  function After(queue: multiset<int>, c: Call): multiset<int> {
    if c.Posted? then queue + multiset{c.deadline}
    else if c.Fired? then queue - multiset{c.deadline}
    else multiset{}
  }

  /** What libuv and the event handler say when the handler is triggered. */
  datatype Answer = Answer(hasOwner: bool, timeout: int, now: int)

  datatype Handler = Handler(lastTimeStamp: int, haveTimerTask: bool, calls: seq<Call>)

  const FRESH: Handler := Handler(0, false, [])

  function Trigger(h: Handler, emulator: bool, a: Answer): Handler {
    if !a.hasOwner then h
    else if a.timeout < 0 then
      if h.haveTimerTask then h.(calls := h.calls + [Removed]) else h
    else
      var timeStamp := a.now + a.timeout;
      if !emulator && timeStamp == h.lastTimeStamp then h
      else
        var calls := if h.haveTimerTask then h.calls + [Removed] else h.calls;
        Handler(timeStamp, true, calls + [Posted(timeStamp)])
  }

  datatype Event =
    | Triggered(a: Answer)            // the descriptor became readable or writable
    | TimerFired(d: int, alive: bool, a: Answer)  // the timer task for `d` ran; `alive`: the weak pointer locks
    | DeInit                          // the environment removes the timer task

  /** An event that cannot happen now, a timer that is not queued, changes nothing. */
  function Step(h: Handler, emulator: bool, e: Event): Handler {
    match e
    case Triggered(a) => Trigger(h, emulator, a)
    case TimerFired(d, alive, a) =>
      if d !in Queue(h.calls) then h
      else
        var h1 := h.(calls := h.calls + [Fired(d)]);
        if alive then Trigger(h1.(haveTimerTask := false), emulator, a) else h1
    case DeInit => h.(calls := h.calls + [Removed])
  }

  function Run(emulator: bool, events: seq<Event>): Handler {
    if events == [] then FRESH else Step(Run(emulator, events[..|events| - 1]), emulator, events[|events| - 1])
  }

  class OHOSLoopHandler {
    var lastTimeStamp: int
    var haveTimerTask: bool
    var calls: seq<Call>
    const emulator: bool

    function State(): Handler
      reads this
    {
      Handler(lastTimeStamp, haveTimerTask, calls)
    }

    constructor (emulator: bool)
      ensures State() == FRESH && this.emulator == emulator
    {
      lastTimeStamp, haveTimerTask, calls, this.emulator := 0, false, [], emulator;
    }

    method OnTriggered(a: Answer)
      modifies this
      ensures State() == Trigger(old(State()), emulator, a)
    {
      if !a.hasOwner {
        return;
      }
      if a.timeout < 0 {
        if haveTimerTask {
          calls := calls + [Removed];
        }
        return;
      }
      var timeStamp := a.now + a.timeout;
      if !emulator {
        if timeStamp == lastTimeStamp {
          return;
        }
      }
      if haveTimerTask {
        calls := calls + [Removed];
      }
      calls := calls + [Posted(timeStamp)];
      lastTimeStamp := timeStamp;
      haveTimerTask := true;
    }

    /** The event handler runs the timer task that is queued for `d`. */
    method OnTimer(d: int, alive: bool, a: Answer)
      requires d in Queue(calls)
      modifies this
      ensures State() == Step(old(State()), emulator, TimerFired(d, alive, a))
    {
      calls := calls + [Fired(d)];
      if alive {
        haveTimerTask := false;
        OnTriggered(a);
      }
    }
  }

  // ---------------------------------------------------------------------------------------------
  // The last post, read off the record

  function LastPost(calls: seq<Call>): Option<int> {
    if calls == [] then None
    else if calls[|calls| - 1].Posted? then Some(calls[|calls| - 1].deadline)
    else LastPost(calls[..|calls| - 1])
  }

  /** A post would be skipped although nothing is queued: its moment is the one of the last post, which
      was removed or has fired since, or there was no post yet and the moment is 0. */
  predicate Lost(calls: seq<Call>, timeStamp: int) {
    var last := LastPost(calls);
    if last.None? then timeStamp == 0 else timeStamp == last.value && Queue(calls) == multiset{}
  }

  /** What every run keeps, in either build. */
  ghost predicate Inv(h: Handler) {
    && (Queue(h.calls) == multiset{} || (h.haveTimerTask && Queue(h.calls) == multiset{h.lastTimeStamp}))
    && h.lastTimeStamp == (if LastPost(h.calls).Some? then LastPost(h.calls).value else 0)
    && (LastPost(h.calls).None? ==> Queue(h.calls) == multiset{})
  }

  lemma Snoc(calls: seq<Call>, c: Call)
    ensures Queue(calls + [c]) == After(Queue(calls), c)
    ensures LastPost(calls + [c]) == if c.Posted? then Some(c.deadline) else LastPost(calls)
  {
    assert (calls + [c])[..|calls|] == calls;
  }

  lemma RemoveKeeps(h: Handler)
    requires Inv(h)
    ensures Inv(h.(calls := h.calls + [Removed])) && Queue(h.calls + [Removed]) == multiset{}
  {
    Snoc(h.calls, Removed);
    hide Queue, LastPost;
  }

  /** A post on an empty queue. */
  lemma PostKeeps(calls: seq<Call>, timeStamp: int)
    requires Queue(calls) == multiset{}
    ensures Inv(Handler(timeStamp, true, calls + [Posted(timeStamp)]))
    ensures Queue(calls + [Posted(timeStamp)]) == multiset{timeStamp}
  {
    Snoc(calls, Posted(timeStamp));
    hide Queue, LastPost;
  }

  lemma NoFlagNoTimer(h: Handler)
    requires Inv(h) && !h.haveTimerTask
    ensures Queue(h.calls) == multiset{}
  {
    hide Queue, LastPost;
  }

  lemma TriggerKeeps(h: Handler, emulator: bool, a: Answer)
    requires Inv(h)
    ensures Inv(Trigger(h, emulator, a))
  {
    hide Inv, Queue, LastPost;
    RemoveKeeps(h);
    if !h.haveTimerTask { NoFlagNoTimer(h); }
    PostKeeps(if h.haveTimerTask then h.calls + [Removed] else h.calls, a.now + a.timeout);
  }

  lemma StepKeeps(h: Handler, emulator: bool, e: Event)
    requires Inv(h)
    ensures Inv(Step(h, emulator, e))
  {
    match e
    case Triggered(a) => TriggerKeeps(h, emulator, a);
    case TimerFired(d, alive, a) =>
      if d in Queue(h.calls) {
        Snoc(h.calls, Fired(d));
        if alive { TriggerKeeps(h.(calls := h.calls + [Fired(d)], haveTimerTask := false), emulator, a); }
      }
    case DeInit => Snoc(h.calls, Removed);
  }

  lemma {:induction false} RunKeeps(emulator: bool, events: seq<Event>)
    ensures Inv(Run(emulator, events))
  {
    if events != [] {
      RunKeeps(emulator, events[..|events| - 1]);
      StepKeeps(Run(emulator, events[..|events| - 1]), emulator, events[|events| - 1]);
    }
  }

  /** At every moment of every run at most one timer task is queued, and then the flag is set and the deadline is the recorded one. */
  lemma AtMostOneTimer(emulator: bool, events: seq<Event>)
    ensures var h := Run(emulator, events);
            && |Queue(h.calls)| <= 1
            && (forall d <- Queue(h.calls) :: h.haveTimerTask && d == h.lastTimeStamp)
  {
    RunKeeps(emulator, events);
  }

  /**
    After any run, a trigger with an owner and a timeout leaves exactly one timer queued, for the moment
    libuv asked for, except exactly when that post is lost; the emulator build has no exception.
  */
  lemma TimerQueuedUnlessLost(emulator: bool, events: seq<Event>, a: Answer)
    requires a.hasOwner && a.timeout >= 0
    ensures var h := Run(emulator, events);
            Queue(Trigger(h, emulator, a).calls) == multiset{a.now + a.timeout}
            <==> emulator || !Lost(h.calls, a.now + a.timeout)
  {
    RunKeeps(emulator, events);
    TriggerQueue(Run(emulator, events), emulator, a);
  }

  lemma TriggerQueue(h: Handler, emulator: bool, a: Answer)
    requires Inv(h) && a.hasOwner && a.timeout >= 0
    ensures var timeStamp := a.now + a.timeout;
            Queue(Trigger(h, emulator, a).calls) ==
            if emulator || !Lost(h.calls, timeStamp) then multiset{timeStamp} else multiset{}
  {
    hide Queue, LastPost;
    var timeStamp := a.now + a.timeout;
    RemoveKeeps(h);
    if !h.haveTimerTask { NoFlagNoTimer(h); }
    PostKeeps(if h.haveTimerTask then h.calls + [Removed] else h.calls, timeStamp);
  }

  /** What a trigger leaves queued when it posts nothing: nothing after a negative timeout, all without an owner. */
  lemma QuietTrigger(h: Handler, emulator: bool, a: Answer)
    requires Inv(h)
    ensures a.hasOwner && a.timeout < 0 ==> Queue(Trigger(h, emulator, a).calls) == multiset{}
    ensures !a.hasOwner ==> Trigger(h, emulator, a) == h
  {
    hide Queue, LastPost, Inv;
    RemoveKeeps(h);
    if !h.haveTimerTask { NoFlagNoTimer(h); }
  }

  lemma RunNext(emulator: bool, events: seq<Event>, e: Event)
    ensures Run(emulator, events + [e]) == Step(Run(emulator, events), emulator, e)
  {
    assert (events + [e])[..|events|] == events;
  }

  /**
    After any run, in either build, a trigger with an owner and no timeout to wait for removes the timer,
    and a trigger without an owner leaves the queue as it was.
  */
  lemma TriggerWithoutTimer(emulator: bool, events: seq<Event>, a: Answer)
    ensures var before := Queue(Run(emulator, events).calls);
            var after := Queue(Run(emulator, events + [Triggered(a)]).calls);
            && (a.hasOwner && a.timeout < 0 ==> after == multiset{})
            && (!a.hasOwner ==> after == before)
  {
    RunKeeps(emulator, events);
    RunNext(emulator, events, Triggered(a));
    hide Queue, Inv, Trigger;
    QuietTrigger(Run(emulator, events), emulator, a);
  }

  /**
    After any run, in either build, a queued timer fires: it leaves the queue; if the handler is gone or
    has no owner, or libuv has nothing to wait for, nothing is queued, and otherwise exactly the timer for
    the moment asked for, unless its post is lost.  A timer that is not queued cannot fire.
  */
  lemma FiredTimer(emulator: bool, events: seq<Event>, d: int, alive: bool, a: Answer)
    ensures var calls := Run(emulator, events).calls;
            var after := Queue(Run(emulator, events + [TimerFired(d, alive, a)]).calls);
            if d !in Queue(calls) then after == Queue(calls)
            else if !alive || !a.hasOwner || a.timeout < 0 then after == multiset{}
            else after == if emulator || !Lost(calls + [Fired(d)], a.now + a.timeout) then multiset{a.now + a.timeout}
                          else multiset{}
  {
    RunKeeps(emulator, events);
    RunNext(emulator, events, TimerFired(d, alive, a));
    var h := Run(emulator, events);
    hide Run, Queue, Inv, Trigger, Lost;
    if d in Queue(h.calls) {
      FiringEmpties(h, d);
      var fired := h.(calls := h.calls + [Fired(d)], haveTimerTask := false);
      QuietTrigger(fired, emulator, a);
      if a.hasOwner && a.timeout >= 0 { TriggerQueue(fired, emulator, a); }
    }
  }

  /** Shutting the loop down removes the timer. */
  lemma DeInitEmpties(emulator: bool, events: seq<Event>)
    ensures Queue(Run(emulator, events + [DeInit]).calls) == multiset{}
  {
    RunNext(emulator, events, DeInit);
    Snoc(Run(emulator, events).calls, Removed);
  }

  /** A post can be lost: a timer fires on time, and libuv asks to be woken at once. */
  lemma LostPostExists()
    ensures var events := [Triggered(Answer(true, 5, 0))];
            var h := Run(false, events + [TimerFired(5, true, Answer(true, 0, 5))]);
            Queue(h.calls) == multiset{}
  {
    var a, b := Triggered(Answer(true, 5, 0)), TimerFired(5, true, Answer(true, 0, 5));
    assert [a][..0] == [] && ([a] + [b])[..1] == [a];
    var h1 := Run(false, [a]);
    assert Run(false, []) == FRESH;
    assert h1 == Handler(5, true, [Posted(5)]);
    Snoc([], Posted(5));
    assert [] + [Posted(5)] == [Posted(5)];
    Snoc([Posted(5)], Fired(5));
    assert Run(false, [a] + [b]) == Handler(5, false, [Posted(5)] + [Fired(5)]);
  }

  // ---------------------------------------------------------------------------------------------
  // The device build against the emulator build, on the same events

  /** The event makes the device build skip a post that the emulator build makes. */
  predicate Loses(h: Handler, e: Event) {
    match e
    case Triggered(a) => a.hasOwner && a.timeout >= 0 && Lost(h.calls, a.now + a.timeout)
    case TimerFired(d, alive, a) =>
      && d in Queue(h.calls) && alive && a.hasOwner && a.timeout >= 0
      && Lost(h.calls + [Fired(d)], a.now + a.timeout)
    case DeInit => false
  }

  /** No event of the run makes the device build lose a post. */
  predicate Lossless(events: seq<Event>) {
    events == [] ||
    (Lossless(events[..|events| - 1]) && !Loses(Run(false, events[..|events| - 1]), events[|events| - 1]))
  }

  lemma TriggerBoth(d: Handler, e: Handler, a: Answer)
    requires Inv(d) && Inv(e) && Queue(d.calls) <= Queue(e.calls)
    ensures var d', e' := Trigger(d, false, a), Trigger(e, true, a);
            && Queue(d'.calls) <= Queue(e'.calls)
            && (Queue(d.calls) == Queue(e.calls) ==>
                  (Queue(d'.calls) == Queue(e'.calls)
                   <==> !(a.hasOwner && a.timeout >= 0 && Lost(d.calls, a.now + a.timeout))))
  {
    if a.hasOwner && a.timeout >= 0 {
      TriggerQueue(d, false, a);
      TriggerQueue(e, true, a);
    } else {
      Snoc(d.calls, Removed);
      Snoc(e.calls, Removed);
    }
  }

  lemma FiringEmpties(h: Handler, t: int)
    requires Inv(h) && t in Queue(h.calls)
    ensures var h' := h.(calls := h.calls + [Fired(t)], haveTimerTask := false);
            Inv(h') && Queue(h'.calls) == multiset{} && Queue(h.calls) == multiset{t}
  {
    Snoc(h.calls, Fired(t));
  }

  lemma FireBoth(d: Handler, e: Handler, t: int, alive: bool, a: Answer)
    requires Inv(d) && Inv(e) && Queue(d.calls) <= Queue(e.calls)
    ensures var ev := TimerFired(t, alive, a);
            var d', e' := Step(d, false, ev), Step(e, true, ev);
            && Queue(d'.calls) <= Queue(e'.calls)
            && (Queue(d.calls) == Queue(e.calls) ==> (Queue(d'.calls) == Queue(e'.calls) <==> !Loses(d, ev)))
  {
    hide Trigger, Lost, Queue, Inv;
    if t in Queue(e.calls) {
      FiringEmpties(e, t);
      if t in Queue(d.calls) {
        FiringEmpties(d, t);
        TriggerBoth(d.(calls := d.calls + [Fired(t)], haveTimerTask := false),
                    e.(calls := e.calls + [Fired(t)], haveTimerTask := false), a);
      } else {
        NoneUnder(Queue(d.calls), t);
      }
    } else {
      assert t !in Queue(d.calls);
    }
  }

  lemma NoneUnder(queue: multiset<int>, t: int)
    requires queue <= multiset{t} && t !in queue
    ensures queue == multiset{}
  {
    assert forall x: int :: queue[x] <= multiset{t}[x];
  }

  lemma StepBoth(d: Handler, e: Handler, ev: Event)
    requires Inv(d) && Inv(e) && Queue(d.calls) <= Queue(e.calls)
    ensures var d', e' := Step(d, false, ev), Step(e, true, ev);
            && Queue(d'.calls) <= Queue(e'.calls)
            && (Queue(d.calls) == Queue(e.calls) ==> (Queue(d'.calls) == Queue(e'.calls) <==> !Loses(d, ev)))
  {
    hide Trigger, Lost, Queue, Inv;
    match ev
    case Triggered(a) => TriggerBoth(d, e, a);
    case TimerFired(t, alive, a) => FireBoth(d, e, t, alive, a);
    case DeInit =>
      Snoc(d.calls, Removed);
      Snoc(e.calls, Removed);
  }

  predicate SameQueues(events: seq<Event>) {
    Queue(Run(false, events).calls) == Queue(Run(true, events).calls)
  }

  /**
    On the same events, whatever the device build has queued the emulator build has queued too, and the
    two have the same queue after every prefix exactly when the device build loses no post on the way.
  */
  lemma {:induction false} DeviceRefinesEmulator(events: seq<Event>)
    ensures Queue(Run(false, events).calls) <= Queue(Run(true, events).calls)
    ensures Lossless(events) <==> forall n: nat :: n <= |events| ==> SameQueues(events[..n])
  {
    hide Queue, Step, Loses, Inv;
    if events == [] {
      assert forall n: nat :: n <= |events| ==> events[..n] == [];
    } else {
      var most, ev := events[..|events| - 1], events[|events| - 1];
      DeviceRefinesEmulator(most);
      RunKeeps(false, most);
      RunKeeps(true, most);
      StepBoth(Run(false, most), Run(true, most), ev);
      assert events[..|events|] == events && most[..|most|] == most;
      assert forall n: nat :: n <= |most| ==> most[..n] == events[..n];
      assert (forall n: nat :: n <= |events| ==> SameQueues(events[..n])) <==>
             (forall n: nat :: n <= |most| ==> SameQueues(most[..n])) && SameQueues(events);
      if Lossless(most) { assert SameQueues(most[..|most|]); }
    }
  }
}

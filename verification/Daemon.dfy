/** The daemon loop: a one-slot request channel, a timer and a select
    (pkg/daemon/daemon.go). Time is a natural number of ticks. An expired timer puts its
    tick into a one-slot channel; with prompt this happens at once, otherwise the tick may
    still be on its way when the loop stops the timer and drains the channel. */
module Daemon {

  datatype Timer = Armed(deadline: nat) | Off

  datatype Phase = AtSelect | Syncing | Stopped

  /** The capacity of syncSoon. */
  const SLOTS := 1

  /** requests: how many wait in syncSoon. ticks: how many ticks are on their way. tick: one
      waits in the timer's channel. starts and ends: when syncs started and ended. */
  datatype State = State(now: nat, requests: nat, timer: Timer, ticks: nat, tick: bool, phase: Phase,
                         starts: seq<nat>, ends: seq<nat>)

  datatype Event =
    | TimePasses(time: nat)
    | Expires
    | Lands            // a tick on its way arrives, or is dropped if one is waiting
    | ReceivesRequest  // case <-d.syncSoon
    | SyncReturns
    | ReceivesTick     // case <-syncTimer.C
    | ReceivesStop     // case <-stop

  /** Which events can happen. The timer never expires early but may do so late, and
      select takes any case that is ready. */
  predicate Enabled(s: State, e: Event) {
    match e
    case TimePasses(_) => true
    case Expires => s.timer.Armed? && s.timer.deadline <= s.now
    case Lands => s.ticks > 0
    case ReceivesRequest => s.phase == AtSelect && s.requests > 0
    case SyncReturns => s.phase == Syncing
    case ReceivesTick => s.phase == AtSelect && s.tick
    case ReceivesStop => s.phase == AtSelect
  }

  /** askForSync drops the request when the channel is full. */
  function AskForSync(s: State): State {
    if s.requests < SLOTS then s.(requests := s.requests + 1) else s
  }

  /** The channel is drained only if the timer was no longer armed. */
  function StopTimer(s: State): State {
    if s.timer.Armed? then s.(timer := Off) else s.(tick := false)
  }

  function After(prompt: bool, interval: nat, s: State, e: Event): State
    requires Enabled(s, e)
  {
    match e
    case TimePasses(time) => s.(now := s.now + time)
    case Expires => if prompt then s.(timer := Off, tick := true) else s.(timer := Off, ticks := s.ticks + 1)
    case Lands => s.(ticks := s.ticks - 1, tick := true)
    case ReceivesRequest => StopTimer(s).(requests := s.requests - 1, phase := Syncing, starts := s.starts + [s.now])
    case SyncReturns => s.(timer := Armed(s.now + interval), phase := AtSelect, ends := s.ends + [s.now])
    case ReceivesTick => AskForSync(s.(tick := false))
    case ReceivesStop => StopTimer(s).(phase := Stopped)
  }

  /** NewTimer and the first askForSync, then the loop. */
  function Start(interval: nat, now: nat): State {
    AskForSync(State(now, 0, Armed(now + interval), 0, false, AtSelect, [], []))
  }

  predicate Possible(prompt: bool, interval: nat, begin: nat, events: seq<Event>)
    decreases |events|, 0
  {
    events == [] ||
    (Possible(prompt, interval, begin, events[..|events| - 1]) &&
     Enabled(Run(prompt, interval, begin, events[..|events| - 1]), events[|events| - 1]))
  }

  function Run(prompt: bool, interval: nat, begin: nat, events: seq<Event>): State
    requires Possible(prompt, interval, begin, events)
    decreases |events|, 1
  {
    if events == [] then Start(interval, begin)
    else After(prompt, interval, Run(prompt, interval, begin, events[..|events| - 1]), events[|events| - 1])
  }

  // What every run keeps

  /** No stall: at the select a request or a tick is there or on its way, or the timer will
      bring one within an interval. */
  predicate NoStall(interval: nat, s: State) {
    s.phase == AtSelect ==>
      s.requests > 0 || s.tick || s.ticks > 0 || (s.timer.Armed? && s.timer.deadline <= s.now + interval)
  }

  predicate Inv(interval: nat, s: State) {
    NoStall(interval, s) && s.requests <= 1 && (s.phase == Syncing ==> s.requests == 0 && s.timer == Off) &&
    |s.starts| == |s.ends| + (if s.phase == Syncing then 1 else 0) &&
    (s.phase == AtSelect && s.starts == [] ==> s.requests == 1)
  }

  lemma {:induction false} EveryRunIsSteady(prompt: bool, interval: nat, begin: nat, events: seq<Event>)
    requires Possible(prompt, interval, begin, events)
    ensures Inv(interval, Run(prompt, interval, begin, events))
  {
    if events != [] {
      EveryRunIsSteady(prompt, interval, begin, events[..|events| - 1]);
    }
  }

  /** Once stopped the loop takes no case any more, and no sync starts or ends. */
  lemma {:induction false} StoppedStays(prompt: bool, interval: nat, begin: nat, events: seq<Event>, more: seq<Event>)
    requires Possible(prompt, interval, begin, events) && Possible(prompt, interval, begin, events + more)
    requires events != [] && events[|events| - 1] == ReceivesStop
    ensures var s, s' := Run(prompt, interval, begin, events), Run(prompt, interval, begin, events + more);
      s'.phase == Stopped && s'.starts == s.starts && s'.ends == s.ends && s'.timer == Off
    ensures forall e :: e in more ==> e.TimePasses? || e.Lands?
  {
    hide Run, Possible;
    if more == [] {
      assert events + more == events;
      LastStep(prompt, interval, begin, events);
    } else {
      var n := |more| - 1;
      assert (events + more)[..|events| + n] == events + more[..n];
      LastStep(prompt, interval, begin, events + more);
      StoppedStays(prompt, interval, begin, events, more[..n]);
      assert more == more[..n] + [more[n]];
    }
  }

  lemma LastStep(prompt: bool, interval: nat, begin: nat, events: seq<Event>)
    requires Possible(prompt, interval, begin, events) && events != []
    ensures var n := |events| - 1;
      Possible(prompt, interval, begin, events[..n]) &&
      var s := Run(prompt, interval, begin, events[..n]);
      Enabled(s, events[n]) && Run(prompt, interval, begin, events) == After(prompt, interval, s, events[n])
  {
  }

  // The time between syncs

  /** Each sync after the first starts at least one interval after the previous one ended. */
  predicate Spaced(interval: nat, s: State) {
    forall i :: 0 <= i < |s.ends| && i + 1 < |s.starts| ==> s.ends[i] + interval <= s.starts[i + 1]
  }

  /** No tick is on its way whenever a request is received. */
  predicate NoneLate(prompt: bool, interval: nat, begin: nat, events: seq<Event>)
    requires Possible(prompt, interval, begin, events)
  {
    events == [] ||
    var before := events[..|events| - 1];
    NoneLate(prompt, interval, begin, before) &&
    (events[|events| - 1] == ReceivesRequest ==> Run(prompt, interval, begin, before).ticks == 0)
  }

  /** No tick outlives the draining, and so none asks too early. */
  predicate SpacedInv(interval: nat, s: State) {
    (s.tick || s.ticks > 0 ==> s.timer == Off && s.phase != Syncing) && Spaced(interval, s) &&
    (s.ends != [] && s.phase != Syncing ==>
      var due := s.ends[|s.ends| - 1] + interval;
      (s.requests > 0 || s.tick || s.ticks > 0 ==> due <= s.now) && (s.timer.Armed? ==> due <= s.timer.deadline))
  }

  /** However slow the ticks are. */
  lemma {:induction false} NoneLateIsSpaced(prompt: bool, interval: nat, begin: nat, events: seq<Event>)
    requires Possible(prompt, interval, begin, events) && NoneLate(prompt, interval, begin, events)
    ensures SpacedInv(interval, Run(prompt, interval, begin, events))
  {
    if events != [] {
      NoneLateIsSpaced(prompt, interval, begin, events[..|events| - 1]);
      EveryRunIsSteady(prompt, interval, begin, events[..|events| - 1]);
    }
  }

  lemma {:induction false} PromptIsNeverLate(interval: nat, begin: nat, events: seq<Event>)
    requires Possible(true, interval, begin, events)
    ensures Run(true, interval, begin, events).ticks == 0 && NoneLate(true, interval, begin, events)
  {
    if events != [] {
      PromptIsNeverLate(interval, begin, events[..|events| - 1]);
    }
  }

  lemma PromptRunIsSpaced(interval: nat, begin: nat, events: seq<Event>)
    requires Possible(true, interval, begin, events)
    ensures Spaced(interval, Run(true, interval, begin, events))
  {
    PromptIsNeverLate(interval, begin, events);
    NoneLateIsSpaced(true, interval, begin, events);
  }

  lemma OneMore(prompt: bool, interval: nat, begin: nat, events: seq<Event>, e: Event)
    requires Possible(prompt, interval, begin, events) && Enabled(Run(prompt, interval, begin, events), e)
    ensures Possible(prompt, interval, begin, events + [e])
    ensures Run(prompt, interval, begin, events + [e]) ==
      After(prompt, interval, Run(prompt, interval, begin, events), e)
  {
  }

  /** Where a request is received with a tick on its way, the next sync may start at once. */
  lemma LateTickCanRush(prompt: bool, interval: nat, begin: nat, events: seq<Event>) returns (more: seq<Event>)
    requires interval > 0 && Possible(prompt, interval, begin, events)
    requires var s := Run(prompt, interval, begin, events); Enabled(s, ReceivesRequest) && s.ticks > 0
    ensures more != [] && more[0] == ReceivesRequest
    ensures Possible(prompt, interval, begin, events + more)
    ensures !Spaced(interval, Run(prompt, interval, begin, events + more))
  {
    hide Run, Possible;
    EveryRunIsSteady(prompt, interval, begin, events);
    ghost var s := Run(prompt, interval, begin, events);
    assert events + [] == events;
    more := Extend(prompt, interval, begin, events, [], ReceivesRequest);
    more := Extend(prompt, interval, begin, events, more, Lands);
    more := Extend(prompt, interval, begin, events, more, SyncReturns);
    more := Extend(prompt, interval, begin, events, more, ReceivesTick);
    more := Extend(prompt, interval, begin, events, more, ReceivesRequest);
    var r := Run(prompt, interval, begin, events + more);
    assert r.ends[|s.ends|] == s.now == r.starts[|s.ends| + 1];
  }

  /** A run to such a request. */
  lemma LateTickRushes(interval: nat) returns (events: seq<Event>)
    requires interval > 0
    ensures Possible(false, interval, 0, events) && !Spaced(interval, Run(false, interval, 0, events))
  {
    hide Run, Possible;
    AtStart(interval);
    events := [];
    OneMore(false, interval, 0, events, TimePasses(interval));
    events := events + [TimePasses(interval)];
    OneMore(false, interval, 0, events, Expires);
    events := events + [Expires];
    var more := LateTickCanRush(false, interval, 0, events);
    events := events + more;
  }

  lemma AtStart(interval: nat)
    ensures Possible(false, interval, 0, []) && Run(false, interval, 0, []) == Start(interval, 0)
  {
  }

  /** Every run is spaced if and only if ticks are prompt. */
  lemma EveryRunIsSpacedIff(prompt: bool, interval: nat)
    requires interval > 0
    ensures (forall begin, events :: Possible(prompt, interval, begin, events) ==>
               Spaced(interval, Run(prompt, interval, begin, events))) <==> prompt
  {
    if prompt {
      forall begin, events | Possible(prompt, interval, begin, events)
        ensures Spaced(interval, Run(prompt, interval, begin, events))
      {
        PromptRunIsSpaced(interval, begin, events);
      }
    } else {
      var events := LateTickRushes(interval);
    }
  }

  // Progress

  /** From every select the next sync can start, and no later than one interval from now. */
  lemma NextSyncWithinInterval(prompt: bool, interval: nat, begin: nat, events: seq<Event>) returns (more: seq<Event>)
    requires Possible(prompt, interval, begin, events) && Run(prompt, interval, begin, events).phase == AtSelect
    ensures Possible(prompt, interval, begin, events + more)
    ensures var s, s' := Run(prompt, interval, begin, events), Run(prompt, interval, begin, events + more);
            s'.phase == Syncing && |s'.starts| == |s.starts| + 1 && s'.now <= s.now + interval
  {
    hide Run, Possible;
    EveryRunIsSteady(prompt, interval, begin, events);
    var s := Run(prompt, interval, begin, events);
    more := [];
    assert events + more == events;
    if s.requests == 0 && !s.tick && s.ticks == 0 {
      var wait := TimePasses(if s.timer.deadline <= s.now then 0 else s.timer.deadline - s.now);
      more := Extend(prompt, interval, begin, events, more, wait);
      more := Extend(prompt, interval, begin, events, more, Expires);
    }
    s := Run(prompt, interval, begin, events + more);
    if s.requests == 0 && !s.tick {
      more := Extend(prompt, interval, begin, events, more, Lands);
    }
    s := Run(prompt, interval, begin, events + more);
    if s.requests == 0 {
      more := Extend(prompt, interval, begin, events, more, ReceivesTick);
    }
    more := Extend(prompt, interval, begin, events, more, ReceivesRequest);
  }

  lemma Extend(prompt: bool, interval: nat, begin: nat, events: seq<Event>, more: seq<Event>, e: Event)
    returns (longer: seq<Event>)
    requires Possible(prompt, interval, begin, events + more) && Enabled(Run(prompt, interval, begin, events + more), e)
    ensures longer == more + [e] && Possible(prompt, interval, begin, events + longer)
    ensures Run(prompt, interval, begin, events + longer) ==
      After(prompt, interval, Run(prompt, interval, begin, events + more), e)
  {
    longer := more + [e];
    OneMore(prompt, interval, begin, events + more, e);
    assert events + longer == events + more + [e];
  }
}

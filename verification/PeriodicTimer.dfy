/**
 PeriodicTimer of reactor_events.h over a single-threaded FIFO loop. Controls are posted from any
 thread; a wait that is cancelled after it expired is already queued and cannot be recalled, which
 is what the generation is for.
 */
module PeriodicTimer {
  import opened Basics

  datatype Handler =
    | ArmIt                                        // posted by start()
    | AgainIt                                      // posted by again()
    | CancelIt                                     // posted by stop()
    | Completion(admitted: nat, failed: bool)      // of a wait: expired, or cancelled

  predicate IsControl(h: Handler) {
    !h.Completion?
  }

  datatype Event = Armed(generation: nat) | Cancelled(generation: nat) | Fired(generation: nat)

  datatype State = State(
    generation: nat,
    wait: Option<nat>,           // the wait pending in the timer, by the generation it was armed with
    repeating: bool,             // repeat_seconds > 0
    queue: seq<Handler>,
    running: Option<nat>,        // the callback under way
    log: seq<Event>,
    overtaken: set<nat>)         // generations armed while a control was already queued

  datatype Step =
    | SetRepeat(on: bool)        // start() and set_repeat() store it at once, from any thread
    | Post(h: Handler)           // start(), again() or stop(), from any thread or from the callback
    | Expire                     // the timer fires: its completion is queued
    | RunNext                    // the loop runs the handler in front
    | CallbackEnds               // it returned, or threw: the exception leaves after the re-arm

  predicate Enabled(s: State, step: Step) {
    match step
    case SetRepeat(_) => true
    case Post(h) => IsControl(h)
    case Expire => s.wait.Some?
    case RunNext => s.running.None? && s.queue != []
    case CallbackEnds => s.running.Some?
  }

  // Ending a pending wait queues its completion with an error.
  function Ended(s: State): seq<Handler> {
    if s.wait.Some? then s.queue + [Completion(s.wait.value, true)] else s.queue
  }

  predicate ControlQueued(queue: seq<Handler>) {
    exists i :: 0 <= i < |queue| && IsControl(queue[i])
  }

  function Arm(s: State): State {
    var g := s.generation + 1;
    s.(generation := g, queue := Ended(s), wait := Some(g), log := s.log + [Armed(g)],
       overtaken := if ControlQueued(s.queue) then s.overtaken + {g} else s.overtaken)
  }

  function Cancel(s: State): State {
    var g := s.generation + 1;
    s.(generation := g, queue := Ended(s), wait := None, log := s.log + [Cancelled(g)])
  }

  function Run(s: State, h: Handler): State {
    match h
    case ArmIt => Arm(s)
    case AgainIt => if s.repeating then Arm(s) else Cancel(s)
    case CancelIt => Cancel(s)
    case Completion(admitted, failed) =>
      if failed || admitted != s.generation then s
      else s.(running := Some(admitted), log := s.log + [Fired(admitted)])
  }

  function EndCallback(s: State): State
    requires s.running.Some?
  {
    var admitted := s.running.value;
    var t := s.(running := None);
    if s.repeating && admitted == s.generation then Arm(t) else t
  }

  function Do(s: State, step: Step): State
    requires Enabled(s, step)
  {
    match step
    case SetRepeat(on) => s.(repeating := on)
    case Post(h) => s.(queue := s.queue + [h])
    case Expire => s.(queue := s.queue + [Completion(s.wait.value, false)], wait := None)
    case RunNext => Run(s.(queue := s.queue[1..]), s.queue[0])
    case CallbackEnds => EndCallback(s)
  }

  const START := State(0, None, false, [], None, [], {})

  ghost predicate Runs(s: State, steps: seq<Step>)
    decreases |steps|
  {
    steps == [] || (Enabled(s, steps[0]) && Runs(Do(s, steps[0]), steps[1..]))
  }

  ghost function After(s: State, steps: seq<Step>): State
    requires Runs(s, steps)
    decreases |steps|
  {
    if steps == [] then s else After(Do(s, steps[0]), steps[1..])
  }

  // ---------- The state object ----------

  // State of reactor_events.h, with the loop's queue: arm() and cancel() change it in place.
  class TimerState {
    var generation: nat
    var wait: Option<nat>
    var repeating: bool
    var queue: seq<Handler>
    var running: Option<nat>
    ghost var log: seq<Event>
    ghost var overtaken: set<nat>

    ghost function View(): State
      reads this
    {
      State(generation, wait, repeating, queue, running, log, overtaken)
    }

    constructor ()
      ensures View() == START
    {
      generation, wait, repeating, queue, running := 0, None, false, [], None;
      log, overtaken := [], {};
    }

    method EndWait()
      modifies `queue, `wait
      ensures queue == Ended(old(View())) && wait == None
    {
      if wait.Some? {
        queue := queue + [Completion(wait.value, true)];
        wait := None;
      }
    }

    method ArmTimer()
      modifies this
      ensures View() == Arm(old(View()))
    {
      if ControlQueued(queue) {
        overtaken := overtaken + {generation + 1};
      }
      generation := generation + 1;
      EndWait();
      wait := Some(generation);
      log := log + [Armed(generation)];
    }

    method CancelTimer()
      modifies this
      ensures View() == Cancel(old(View()))
    {
      generation := generation + 1;
      EndWait();
      log := log + [Cancelled(generation)];
    }

    method RunHandler()
      requires running.None? && queue != []
      modifies this
      ensures View() == Do(old(View()), RunNext)
    {
      var h := queue[0];
      queue := queue[1..];
      match h {
        case ArmIt => ArmTimer();
        case AgainIt =>
          if repeating {
            ArmTimer();
          } else {
            CancelTimer();
          }
        case CancelIt => CancelTimer();
        case Completion(admitted, failed) =>
          if failed || admitted != generation {
            return;
          }
          running := Some(admitted);
          log := log + [Fired(admitted)];
      }
    }

    method FinishCallback()
      requires running.Some?
      modifies this
      ensures View() == Do(old(View()), CallbackEnds)
    {
      var admitted := running.value;
      running := None;
      if repeating && admitted == generation {
        ArmTimer();
      }
    }
  }

  // ---------- The invariant ----------

  predicate Carries(h: Handler, g: nat) {
    h == Completion(g, false)
  }

  function Carriers(queue: seq<Handler>, g: nat): nat {
    if queue == [] then 0 else (if Carries(queue[0], g) then 1 else 0) + Carriers(queue[1..], g)
  }

  // What could still fire generation g: the pending wait and the queued completions.
  function Outstanding(s: State, g: nat): nat {
    Carriers(s.queue, g) + (if s.wait == Some(g) then 1 else 0)
  }

  // The generation of the last arm or cancel, and whether it was an arm that has not fired yet.
  datatype Latest = Latest(generation: nat, armed: bool)

  function LatestOf(log: seq<Event>): Latest {
    if log == [] then Latest(0, false)
    else match log[|log| - 1]
      case Armed(g) => Latest(g, true)
      case Cancelled(g) => Latest(g, false)
      case Fired(g) => Latest(LatestOf(log[..|log| - 1]).generation, false)
  }

  // Every callback fires the latest arm, which no cancel, other arm or earlier firing has used up.
  ghost predicate WellFired(log: seq<Event>) {
    forall i :: 0 <= i < |log| && log[i].Fired? ==> LatestOf(log[..i]) == Latest(log[i].generation, true)
  }

  // A generation armed behind a queued control: that control comes before any completion of it.
  ghost predicate Behind(s: State) {
    s.generation in s.overtaken ==>
      && s.running != Some(s.generation)
      && exists i :: 0 <= i < |s.queue| && IsControl(s.queue[i])
           && (forall k :: 0 <= k < i ==> !Carries(s.queue[k], s.generation))
  }

  ghost predicate Core(s: State) {
    && (s.wait.Some? ==> s.wait.value == s.generation)
    && (forall i :: 0 <= i < |s.queue| && s.queue[i].Completion? ==> s.queue[i].admitted <= s.generation)
    && LatestOf(s.log).generation == s.generation
    && WellFired(s.log)
    && (forall g :: g in s.overtaken ==> g <= s.generation)
    && (forall i :: 0 <= i < |s.log| ==> s.log[i].generation <= s.generation)
    && (forall i, j :: 0 <= i < j < |s.log| && !s.log[j].Fired? ==> s.log[i].generation < s.log[j].generation)
    && (forall i :: 0 <= i < |s.log| && s.log[i].Fired? ==> s.log[i].generation !in s.overtaken)
  }

  ghost predicate Inv(s: State) {
    && Core(s)
    && (s.running.Some? ==> s.running.value == s.generation)
    && Outstanding(s, s.generation) + (if s.running.Some? then 1 else 0) <= 1
    && (Outstanding(s, s.generation) > 0 ==> LatestOf(s.log).armed)
    && Behind(s)
  }

  lemma {:induction false} CarriersConcat(a: seq<Handler>, b: seq<Handler>, g: nat)
    ensures Carriers(a + b, g) == Carriers(a, g) + Carriers(b, g)
  {
    if a == [] {
      assert a + b == b;
    } else {
      assert (a + b)[1..] == a[1..] + b;
      CarriersConcat(a[1..], b, g);
    }
  }

  lemma {:induction false} NoCarriers(queue: seq<Handler>, g: nat)
    requires forall i :: 0 <= i < |queue| ==> !Carries(queue[i], g)
    ensures Carriers(queue, g) == 0
  {
    if queue != [] {
      NoCarriers(queue[1..], g);
    }
  }

  lemma AppendKeepsWellFired(log: seq<Event>, e: Event)
    requires WellFired(log) && (e.Fired? ==> LatestOf(log) == Latest(e.generation, true))
    ensures WellFired(log + [e])
    ensures LatestOf(log + [e]) ==
            if e.Armed? then Latest(e.generation, true)
            else if e.Cancelled? then Latest(e.generation, false)
            else Latest(LatestOf(log).generation, false)
  {
    var l := log + [e];
    assert l[..|l| - 1] == log;
    forall i | 0 <= i < |l| && l[i].Fired? ensures LatestOf(l[..i]) == Latest(l[i].generation, true) {
      if i < |log| {
        assert l[..i] == log[..i];
      }
    }
  }

  // ---------- Every step keeps it ----------

  lemma ArmKeeps(s: State)
    requires Core(s) && s.running.None?
    ensures Inv(Arm(s))
  {
    var t := Arm(s);
    AppendKeepsWellFired(s.log, Armed(t.generation));
    NoCarriers(t.queue, t.generation);
    if ControlQueued(s.queue) {
      var i :| 0 <= i < |s.queue| && IsControl(s.queue[i]);
      assert t.queue[i] == s.queue[i];
    }
  }

  lemma CancelKeeps(s: State)
    requires Core(s) && s.running.None?
    ensures Inv(Cancel(s))
  {
    var t := Cancel(s);
    AppendKeepsWellFired(s.log, Cancelled(t.generation));
    NoCarriers(t.queue, t.generation);
  }

  lemma KeepsAppend(s: State, step: Step)
    requires Inv(s) && Enabled(s, step) && (step.Post? || step.Expire?)
    ensures Inv(Do(s, step))
  {
    var t := Do(s, step);
    var h := t.queue[|s.queue|];
    assert t.queue == s.queue + [h];
    CarriersConcat(s.queue, [h], s.generation);
    if s.generation in s.overtaken {
      var i :| 0 <= i < |s.queue| && IsControl(s.queue[i])
        && (forall k :: 0 <= k < i ==> !Carries(s.queue[k], s.generation));
      assert t.queue[i] == s.queue[i];
    }
  }

  lemma PopKeepsBehind(s: State)
    requires Behind(s) && s.queue != [] && !IsControl(s.queue[0])
    ensures Behind(s.(queue := s.queue[1..]))
  {
    if s.generation in s.overtaken {
      var i :| 0 <= i < |s.queue| && IsControl(s.queue[i])
        && (forall k :: 0 <= k < i ==> !Carries(s.queue[k], s.generation));
      assert s.queue[1..][i - 1] == s.queue[i];
      assert forall k :: 0 <= k < i - 1 ==> s.queue[1..][k] == s.queue[k + 1];
    }
  }

  lemma KeepsStale(s: State)
    requires Inv(s) && Enabled(s, RunNext) && s.queue[0].Completion? && !Carries(s.queue[0], s.generation)
    ensures Inv(Do(s, RunNext))
  {
    PopKeepsBehind(s);
    assert s.queue == [s.queue[0]] + s.queue[1..];
  }

  lemma KeepsFiring(s: State)
    requires Inv(s) && Enabled(s, RunNext) && Carries(s.queue[0], s.generation)
    ensures Inv(Do(s, RunNext))
  {
    assert s.queue == [s.queue[0]] + s.queue[1..];
    assert s.generation !in s.overtaken;
    AppendKeepsWellFired(s.log, Fired(s.generation));
  }

  lemma KeepsControl(s: State)
    requires Inv(s) && Enabled(s, RunNext) && IsControl(s.queue[0])
    ensures Inv(Do(s, RunNext))
  {
    hide WellFired, LatestOf;
    ArmKeeps(s.(queue := s.queue[1..]));
    CancelKeeps(s.(queue := s.queue[1..]));
  }

  lemma KeepsEnd(s: State)
    requires Inv(s) && Enabled(s, CallbackEnds)
    ensures Inv(Do(s, CallbackEnds))
  {
    hide WellFired, LatestOf;
    if s.repeating {
      ArmKeeps(s.(running := None));
    }
  }

  lemma StepKeeps(s: State, step: Step)
    requires Inv(s) && Enabled(s, step)
    ensures Inv(Do(s, step))
  {
    match step
    case SetRepeat(_) =>
    case Post(_) => KeepsAppend(s, step);
    case Expire => KeepsAppend(s, step);
    case RunNext =>
      if Carries(s.queue[0], s.generation) {
        KeepsFiring(s);
      } else if s.queue[0].Completion? {
        KeepsStale(s);
      } else {
        KeepsControl(s);
      }
    case CallbackEnds => KeepsEnd(s);
  }

  lemma {:induction false} RunKeeps(s: State, steps: seq<Step>)
    requires Inv(s) && Runs(s, steps)
    ensures Inv(After(s, steps))
    decreases |steps|
  {
    if steps != [] {
      StepKeeps(s, steps[0]);
      RunKeeps(Do(s, steps[0]), steps[1..]);
    }
  }

  // ---------- Main results ----------

  // In every run, with controls from any thread at any time: at most one outstanding completion
  // carries the current generation, and none while the callback runs; so the generation test after
  // the callback never fails, and whether it re-arms is the repeat interval alone.
  lemma OneOutstanding(steps: seq<Step>)
    requires Runs(START, steps)
    ensures var s := After(START, steps);
            && Outstanding(s, s.generation) <= 1
            && (s.running.Some? ==> Outstanding(s, s.generation) == 0 && s.running.value == s.generation)
            && (s.running.Some? ==> (EndCallback(s).wait.Some? <==> s.repeating))
  {
    assert Inv(START);
    RunKeeps(START, steps);
    var s := After(START, steps);
    if s.running.Some? {
      assert s.wait.None?;
    }
  }

  // Every firing is of the arm executed last before it: nothing fires after a cancel until the next
  // arm, nor a superseded arm; and each arm has its own generation and fires at most once.
  lemma FiresOnlyTheLatestArm(steps: seq<Step>, i: nat)
    requires Runs(START, steps) && i < |After(START, steps).log| && After(START, steps).log[i].Fired?
    ensures var log := After(START, steps).log;
            && i > 0 && log[i - 1] == Armed(log[i].generation)
            && (forall k :: 0 <= k < |log| && k != i ==> log[k] != log[i])
            && (forall k :: 0 <= k < |log| && k != i - 1 ==> log[k] != log[i - 1])
  {
    assert Inv(START);
    RunKeeps(START, steps);
    var log := After(START, steps).log;
    assert LatestOf(log[..i]) == Latest(log[i].generation, true);
    LatestIsLast(log[..i]);
    forall k | 0 <= k < |log| && k != i ensures log[k] != log[i] {
      if log[k].Fired? {
        LatestIsLast(log[..k]);
      }
    }
  }

  lemma LatestIsLast(log: seq<Event>)
    requires LatestOf(log).armed
    ensures log != [] && log[|log| - 1] == Armed(LatestOf(log).generation)
  {
  }

  // An arm executed while a control is queued never fires.
  lemma OvertakenNeverFires(steps: seq<Step>, i: nat)
    requires Runs(START, steps) && i < |After(START, steps).log| && After(START, steps).log[i].Fired?
    ensures After(START, steps).log[i].generation !in After(START, steps).overtaken
  {
    assert Inv(START);
    RunKeeps(START, steps);
  }

  lemma {:induction false} StaysOvertaken(s: State, steps: seq<Step>, g: nat)
    requires Runs(s, steps) && g in s.overtaken
    ensures g in After(s, steps).overtaken
    decreases |steps|
  {
    if steps != [] {
      StaysOvertaken(Do(s, steps[0]), steps[1..], g);
    }
  }

  // A callback that has called stop() is not run again by its own automatic re-arm: in no
  // continuation does the generation armed at its end fire.
  lemma StopInCallback(steps: seq<Step>, more: seq<Step>)
    requires Runs(START, steps) && After(START, steps).running.Some? && CancelIt in After(START, steps).queue
    requires Runs(EndCallback(After(START, steps)), more)
    ensures var s := After(START, steps);
            var g := EndCallback(s).generation;
            g != s.generation ==> Fired(g) !in After(EndCallback(s), more).log
  {
    assert Inv(START);
    RunKeeps(START, steps);
    var s := After(START, steps);
    StepKeeps(s, CallbackEnds);
    RunKeeps(EndCallback(s), more);
    var i :| 0 <= i < |s.queue| && s.queue[i] == CancelIt;
    assert IsControl(s.queue[i]);
    if EndCallback(s).generation != s.generation {
      StaysOvertaken(EndCallback(s), more, EndCallback(s).generation);
    }
  }

  // What the posted controls do: start() arms, stop() cancels, and again() arms exactly if the repeat
  // interval is set when it runs, and cancels otherwise.
  lemma ControlsDoTheirPart(s: State)
    requires Enabled(s, RunNext) && IsControl(s.queue[0])
    ensures var t := Do(s, RunNext);
            && t.wait.Some? == (s.queue[0].ArmIt? || (s.queue[0].AgainIt? && s.repeating))
            && t.generation == s.generation + 1 && (t.wait.Some? ==> t.wait.value == t.generation)
            && t.log == s.log + [if t.wait.Some? then Armed(t.generation) else Cancelled(t.generation)]
  {
  }

  // A timer that is armed fires: in every reachable state with a wait pending, no callback under way and
  // no control queued, when the timer expires and the loop runs its handlers, the callback of exactly
  // that arm is the next thing to happen.
  lemma ArmedFires(steps: seq<Step>) returns (more: seq<Step>)
    requires Runs(START, steps)
    requires var s := After(START, steps); s.wait.Some? && s.running.None? && !ControlQueued(s.queue)
    ensures var s := After(START, steps);
            && more == [Expire] + seq(|s.queue| + 1, _ => RunNext) && Runs(s, more)
            && After(s, more).running == Some(s.generation) && After(s, more).log == s.log + [Fired(s.generation)]
  {
    assert Inv(START);
    RunKeeps(START, steps);
    var s := After(START, steps);
    var t := Do(s, Expire);
    StepKeeps(s, Expire);
    assert t.queue == s.queue + [Completion(s.generation, false)];
    CarriersConcat(s.queue, [Completion(s.generation, false)], s.generation);
    assert Carriers(s.queue, s.generation) == 0;
    NoneCarry(s.queue, s.generation);
    FiresAtTheEnd(t);
    more := [Expire] + seq(|s.queue| + 1, _ => RunNext);
    assert more[1..] == seq(|t.queue|, _ => RunNext);
  }

  lemma {:induction false} NoneCarry(queue: seq<Handler>, g: nat)
    requires Carriers(queue, g) == 0
    ensures forall i :: 0 <= i < |queue| ==> !Carries(queue[i], g)
  {
    if queue != [] {
      NoneCarry(queue[1..], g);
    }
  }

  // Behind stale completions only, the current one fires.
  lemma {:induction false} FiresAtTheEnd(s: State)
    requires s.running.None? && s.queue != [] && s.queue[|s.queue| - 1] == Completion(s.generation, false)
    requires forall i :: 0 <= i < |s.queue| - 1 ==> s.queue[i].Completion? && !Carries(s.queue[i], s.generation)
    ensures var more := seq(|s.queue|, _ => RunNext);
            && Runs(s, more)
            && After(s, more).running == Some(s.generation) && After(s, more).log == s.log + [Fired(s.generation)]
    decreases |s.queue|
  {
    var more: seq<Step> := seq(|s.queue|, _ => RunNext);
    var t := Do(s, RunNext);
    assert more[0] == RunNext && more[1..] == seq(|s.queue| - 1, _ => RunNext);
    if |s.queue| == 1 {
      assert more[1..] == [];
      assert t.running == Some(s.generation);
    } else {
      assert t == s.(queue := s.queue[1..]);
      FiresAtTheEnd(t);
    }
  }

  // The controls among handlers, and those a run posts and executes, in order.
  function ControlsIn(queue: seq<Handler>): seq<Handler> {
    if queue == [] then [] else (if IsControl(queue[0]) then [queue[0]] else []) + ControlsIn(queue[1..])
  }

  ghost function Posted(steps: seq<Step>): seq<Handler> {
    if steps == [] then [] else (if steps[0].Post? then [steps[0].h] else []) + Posted(steps[1..])
  }

  ghost function Executed(s: State, steps: seq<Step>): seq<Handler>
    requires Runs(s, steps)
    decreases |steps|
  {
    if steps == [] then []
    else (if steps[0].RunNext? && IsControl(s.queue[0]) then [s.queue[0]] else []) + Executed(Do(s, steps[0]), steps[1..])
  }

  lemma {:induction false} ControlsConcat(a: seq<Handler>, b: seq<Handler>)
    ensures ControlsIn(a + b) == ControlsIn(a) + ControlsIn(b)
  {
    if a == [] {
      assert a + b == b;
    } else {
      assert (a + b)[1..] == a[1..] + b;
      ControlsConcat(a[1..], b);
      var first := if IsControl(a[0]) then [a[0]] else [];
      assert first + (ControlsIn(a[1..]) + ControlsIn(b)) == (first + ControlsIn(a[1..])) + ControlsIn(b);
    }
  }

  lemma ArmQueues(s: State)
    ensures ControlsIn(Arm(s).queue) == ControlsIn(Cancel(s).queue) == ControlsIn(s.queue)
  {
    if s.wait.Some? {
      ControlsConcat(s.queue, [Completion(s.wait.value, true)]);
    }
  }

  lemma ControlStep(s: State, step: Step)
    requires Enabled(s, step)
    ensures ControlsIn(s.queue) + (if step.Post? then [step.h] else []) ==
            (if step.RunNext? && IsControl(s.queue[0]) then [s.queue[0]] else []) + ControlsIn(Do(s, step).queue)
  {
    match step
    case SetRepeat(_) =>
    case Post(h) => ControlsConcat(s.queue, [h]);
    case Expire => ControlsConcat(s.queue, [Completion(s.wait.value, false)]);
    case RunNext => ArmQueues(s.(queue := s.queue[1..]));
    case CallbackEnds => ArmQueues(s.(running := None));
  }

  // In every run start(), again() and stop() take effect in the order they were called: the controls
  // executed, and then those still queued, are exactly the ones posted.
  lemma {:induction false} ControlsInOrder(s: State, steps: seq<Step>)
    requires Runs(s, steps)
    ensures ControlsIn(s.queue) + Posted(steps) == Executed(s, steps) + ControlsIn(After(s, steps).queue)
    decreases |steps|
  {
    if steps != [] {
      var posted := if steps[0].Post? then [steps[0].h] else [];
      var done := if steps[0].RunNext? && IsControl(s.queue[0]) then [s.queue[0]] else [];
      var t := Do(s, steps[0]);
      ControlStep(s, steps[0]);
      hide ControlsIn, Do, Enabled;
      ControlsInOrder(t, steps[1..]);
      Chained(ControlsIn(s.queue), posted, Posted(steps[1..]), done, ControlsIn(t.queue), Executed(t, steps[1..]),
              ControlsIn(After(s, steps).queue));
    } else {
      assert ControlsIn(s.queue) + [] == [] + ControlsIn(s.queue);
    }
  }

  lemma Chained<T>(a: seq<T>, b: seq<T>, c: seq<T>, d: seq<T>, e: seq<T>, f: seq<T>, g: seq<T>)
    requires a + b == d + e && e + c == f + g
    ensures a + (b + c) == (d + f) + g
  {
    assert a + (b + c) == (a + b) + c;
    assert (d + e) + c == d + (e + c);
    assert d + (f + g) == (d + f) + g;
  }

  function LastRepeat(was: bool, steps: seq<Step>): bool
    decreases |steps|
  {
    if steps == [] then was else LastRepeat(if steps[0].SetRepeat? then steps[0].on else was, steps[1..])
  }

  // The repeat interval is the one stored last.
  lemma {:induction false} RepeatIsTheLast(s: State, steps: seq<Step>)
    requires Runs(s, steps)
    ensures After(s, steps).repeating == LastRepeat(s.repeating, steps)
    decreases |steps|
  {
    if steps != [] {
      RepeatIsTheLast(Do(s, steps[0]), steps[1..]);
    }
  }
}

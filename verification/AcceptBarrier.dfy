/**
 The accept barrier: what stop_on_owner leaves of an accept loop, that the loop then ends, and that an
 ended loop starts nothing more.
 */
module AcceptBarrier {
  import opened Server

  // Once stop_on_owner has run, the accept loop is in no wait that is not already completed, wherever it
  // was when `stopping` was set, and it is past every point from which a session could still be launched.
  lemma NoUncancelledWait(s: State, steps: seq<Step>, a: nat)
    requires Init(s) && Runs(s, steps) && Shaped(After(s, steps)) && a < |After(s, steps).accepts|
    requires After(s, steps).closed[a]
    ensures var p := After(s, steps).accepts[a];
            && p != Accepting(Pending) && p != Timing(Pending)
            && !p.Admitting? && !p.Ticketing? && !p.Launching? && !p.Unwinding? && !p.AtTop?
  {
    Reachable(s, steps);
  }

  // How many of its own steps an accept loop has left once `stopping` is set.
  function Left(p: Accept): nat {
    match p
    case Finished => 0
    case Ending => 1
    case Unwinding(_) => 3
    case Launching(_) => 4
    case Ticketing(_, _) => 5
    case Admitting => 6
    case Spawned => 3
    case Accepting(w) => if w.Ready? then 3 else 4
    case Timing(w) => if w.Ready? then 3 else 4
    case _ => 2
  }

  // A step of accept loop a itself: its coroutine's, or the completion of its wait.
  predicate OwnStep(step: Step, a: nat) {
    IsAcceptStep(step) && step.a == a && !step.StopOnOwner?
  }

  function OwnSteps(steps: seq<Step>, a: nat): nat {
    if steps == [] then 0 else (if OwnStep(steps[0], a) then 1 else 0) + OwnSteps(steps[1..], a)
  }

  lemma LeftShrinks(s: State, step: Step)
    requires Enabled(s, step) && IsAcceptStep(step) && !step.StopOnOwner? && s.stopping[step.a]
    ensures step.a < |Do(s, step).accepts| && Left(Do(s, step).accepts[step.a]) < Left(s.accepts[step.a])
  {
  }

  lemma LeftStays(s: State, step: Step, a: nat)
    requires Enabled(s, step) && a < |s.accepts| && !OwnStep(step, a)
    ensures a < |Do(s, step).accepts| && Left(Do(s, step).accepts[a]) <= Left(s.accepts[a])
  {
    if IsAcceptStep(step) && step.a == a {
      assert step == StopOnOwner(a);
    } else {
      OthersStay(s, step, a);
    }
  }

  lemma OthersStay(s: State, step: Step, a: nat)
    requires Enabled(s, step) && a < |s.accepts| && (IsAcceptStep(step) ==> step.a != a)
    ensures a < |Do(s, step).accepts| && Do(s, step).accepts[a] == s.accepts[a]
  {
    if IsAcceptStep(step) {
      assert Do(s, step) == DoAccept(s, step);
    } else {
      hide DoConn;
      NotTheAcceptors(s, step);
    }
  }

  lemma NotTheAcceptors(s: State, step: Step)
    requires Enabled(s, step) && !IsAcceptStep(step)
    ensures Do(s, step).accepts == s.accepts && (!step.Advance? ==> Do(s, step).stopping == s.stopping)
  {
  }

  lemma StillStopping(s: State, step: Step, a: nat)
    requires Enabled(s, step) && a < |s.stopping| && s.stopping[a]
    ensures a < |Do(s, step).stopping| && Do(s, step).stopping[a]
  {
    if !IsAcceptStep(step) && !step.Advance? {
      NotTheAcceptors(s, step);
    }
  }

  // In any schedule and any continuation, an accept loop takes at most six steps of its own after
  // `stopping` was set, and at most three after stop_on_owner has run.
  lemma OwnStepsAreBounded(s: State, steps: seq<Step>, more: seq<Step>, a: nat)
    requires Init(s) && Runs(s, steps) && Runs(After(s, steps), more) && Shaped(After(s, steps))
    requires a < |After(s, steps).accepts| && After(s, steps).stopping[a]
    ensures OwnSteps(more, a) <= if After(s, steps).closed[a] then 3 else 6
  {
    hide Do, Enabled;
    Reachable(s, steps);
    EndsInLeft(After(s, steps), more, a);
  }

  lemma {:induction false} EndsInLeft(s: State, more: seq<Step>, a: nat)
    requires Runs(s, more) && a < |s.accepts| && a < |s.stopping| && s.stopping[a]
    ensures a < |After(s, more).accepts| && OwnSteps(more, a) + Left(After(s, more).accepts[a]) <= Left(s.accepts[a])
    decreases |more|
  {
    hide Do, Enabled;
    if more != [] {
      var step := more[0];
      StillStopping(s, step, a);
      if OwnStep(step, a) {
        LeftShrinks(s, step);
      } else {
        LeftStays(s, step, a);
      }
      EndsInLeft(Do(s, step), more[1..], a);
    }
  }

  // ---------- It can always end ----------

  // Who occupies a loop is on it, and a ticket being unwound is in its destructor.
  ghost predicate OccupantInv(s: State)
    requires Shaped(s)
  {
    && (forall a, b :: 0 <= a < b < |s.home| ==> s.home[a] != s.home[b])
    && (forall r :: 0 <= r < |s.busy| && s.busy[r].Session? ==>
          s.busy[r].c < |s.conns| && s.conns[s.busy[r].c].reactor == r && s.conns[s.busy[r].c].stage.Entered?)
    && (forall a :: 0 <= a < |s.home| && s.busy[s.home[a]].Acceptor? ==>
          s.busy[s.home[a]].a == a && OnLoop(s.accepts[a]))
    && (forall a :: 0 <= a < |s.accepts| && s.accepts[a].Unwinding? ==>
          s.accepts[a].c < |s.conns| && InDestructor(s.conns[s.accepts[a].c].stage))
    && (forall a :: 0 <= a < |s.accepts| && s.accepts[a].Ticketing? ==> s.accepts[a].target < |s.sessions|)
  }

  predicate InDestructor(stage: Stage) {
    stage.Leaving? || stage.Reset? || stage.Over?
  }

  // What a light step leaves on its loop.
  ghost predicate LeavesLoop(s: State, t: State, a: nat)
    requires Shaped(s) && Shaped(t) && a < |s.accepts| && t.home == s.home
  {
    var b, p := t.busy[s.home[a]], t.accepts[a];
    && (b.Session? ==> b == s.busy[s.home[a]])
    && (b.Acceptor? ==> b.a == a && OnLoop(p))
    && !p.Unwinding? && (p.Ticketing? ==> p.target < |s.sessions|)
  }

  lemma LightLeaves(s: State, step: Step)
    requires Shaped(s) && OccupantInv(s) && Enabled(s, step) && Light(step) && Shaped(Do(s, step))
    ensures Do(s, step).home == s.home && LeavesLoop(s, Do(s, step), step.a)
  {
    if step.ReadStopping? {
      ReadLeaves(s, step.a, step.choice);
    } else {
      assert s.busy[s.home[step.a]].Acceptor? ==> s.busy[s.home[step.a]].a == step.a && OnLoop(s.accepts[step.a]);
    }
  }

  lemma ReadLeaves(s: State, a: nat, choice: Choice)
    requires Shaped(s) && OccupantInv(s) && Enabled(s, ReadStopping(a, choice)) && Shaped(Do(s, ReadStopping(a, choice)))
    ensures Do(s, ReadStopping(a, choice)).home == s.home && LeavesLoop(s, Do(s, ReadStopping(a, choice)), a)
  {
  }

  lemma OccupantKeepsLight(s: State, step: Step)
    requires FlowInv(s) && OccupantInv(s) && Enabled(s, step) && Light(step)
    requires Shaped(Do(s, step))
    ensures OccupantInv(Do(s, step))
  {
    hide Do, Enabled, HandInv, BarrierInv, StopperInv;
    LightStep(s, step);
    LightLeaves(s, step);
  }

  lemma OccupantKeepsConstruct(s: State, a: nat)
    requires FlowInv(s) && OccupantInv(s) && Enabled(s, Construct(a))
    requires Shaped(Do(s, Construct(a)))
    ensures OccupantInv(Do(s, Construct(a)))
  {
    hide HandInv, BarrierInv, StopperInv;
  }

  lemma OccupantKeepsLaunch(s: State, a: nat, fails: bool)
    requires FlowInv(s) && OccupantInv(s) && Enabled(s, Launch(a, fails))
    requires Shaped(Do(s, Launch(a, fails)))
    ensures OccupantInv(Do(s, Launch(a, fails)))
  {
    hide BarrierInv, StopperInv;
  }

  // What a connection's step leaves on its loop.
  ghost predicate LeavesConn(s: State, t: State, c: nat)
    requires Shaped(s) && Shaped(t) && c < |s.conns| && c < |t.conns| && t.home == s.home && t.conns[c].reactor == s.conns[c].reactor
  {
    var b, was := t.busy[t.conns[c].reactor], s.busy[s.conns[c].reactor];
    && (b.Session? ==> (b.c == c && t.conns[c].stage.Entered?) || (b.c != c && b == was))
    && (b.Acceptor? ==> b == was)
    && (InDestructor(s.conns[c].stage) ==> InDestructor(t.conns[c].stage))
  }

  lemma ConnLeaves(s: State, step: Step)
    requires FlowInv(s) && OccupantInv(s) && Enabled(s, step) && IsConnStep(step) && Shaped(Do(s, step))
    requires step.c < |Do(s, step).conns| && Do(s, step).conns[step.c].reactor == s.conns[step.c].reactor
    requires Do(s, step).home == s.home
    ensures LeavesConn(s, Do(s, step), step.c)
  {
    hide HandInv, BarrierInv, StopperInv;
    assert s.busy[s.conns[step.c].reactor] == Session(step.c) ==> s.conns[step.c].stage.Entered?;
  }

  lemma OccupantKeepsConn(s: State, step: Step)
    requires FlowInv(s) && OccupantInv(s) && Enabled(s, step) && IsConnStep(step)
    requires Shaped(Do(s, step))
    ensures OccupantInv(Do(s, step))
  {
    hide Do, Enabled, HandInv, BarrierInv, StopperInv;
    ConnStep(s, step);
    ConnLeaves(s, step);
  }

  lemma OccupantKeepsStopOnOwner(s: State, a: nat)
    requires FlowInv(s) && OccupantInv(s) && Enabled(s, StopOnOwner(a))
    requires Shaped(Do(s, StopOnOwner(a)))
    ensures OccupantInv(Do(s, StopOnOwner(a)))
  {
    hide HandInv, BarrierInv, StopperInv;
  }

  lemma OccupantKeepsWalk(s: State, step: Step)
    requires Shaped(s) && OccupantInv(s) && Enabled(s, step) && (step.WalkBegin? || step.WalkEnd?)
    requires Shaped(Do(s, step))
    ensures OccupantInv(Do(s, step))
  {
  }

  lemma SameLoops(s: State, step: Step)
    requires Enabled(s, step) && (step.Advance? || step.GiveUp? || step.Pass? || step.Halt? || step.AbortAll?)
    ensures Do(s, step).busy == s.busy && Do(s, step).home == s.home
  {
  }

  lemma OccupantKeepsRest(s: State, step: Step)
    requires Shaped(s) && OccupantInv(s) && Enabled(s, step) && (step.Advance? || step.GiveUp? || step.Pass? || step.Halt? || step.AbortAll?)
    requires Shaped(Do(s, step))
    ensures OccupantInv(Do(s, step))
  {
    hide Do, Enabled;
    SameLoops(s, step);
    RestFrame(s, step);
  }

  lemma Keeps(s: State, step: Step)
    requires Inv(s) && OccupantInv(s) && Enabled(s, step)
    ensures Inv(Do(s, step)) && OccupantInv(Do(s, step))
  {
    hide Do, Enabled, OccupantInv, CountInv, RefundInv, ScanInv, TimeInv, LoopInv, HandInv, BarrierInv, StopperInv;
    StepKeeps(s, step);
    if Light(step) {
      OccupantKeepsLight(s, step);
    } else if step.Construct? {
      OccupantKeepsConstruct(s, step.a);
    } else if step.Launch? {
      OccupantKeepsLaunch(s, step.a, step.fails);
    } else if step.StopOnOwner? {
      OccupantKeepsStopOnOwner(s, step.a);
    } else if IsConnStep(step) {
      OccupantKeepsConn(s, step);
    } else if step.WalkBegin? || step.WalkEnd? {
      OccupantKeepsWalk(s, step);
    } else {
      OccupantKeepsRest(s, step);
    }
  }

  lemma {:induction false} RunKeepsOccupants(s: State, steps: seq<Step>)
    requires Inv(s) && OccupantInv(s) && Runs(s, steps)
    ensures Inv(After(s, steps)) && OccupantInv(After(s, steps))
    decreases |steps|
  {
    hide Do, Enabled, Inv, OccupantInv;
    if steps != [] {
      Keeps(s, steps[0]);
      RunKeepsOccupants(Do(s, steps[0]), steps[1..]);
    }
  }

  // The accept loop waits for a handler of a loop that runs none any more.
  predicate Stranded(s: State, a: nat)
    requires Shaped(s) && a < |s.accepts|
  {
    s.halted[s.home[a]] && !OnLoop(s.accepts[a]) && !s.accepts[a].Finished?
  }

  // What to run next so that accept loop a ends: free its loop, wake it, or let it go on.
  function Next(s: State, a: nat): Step
    requires Shaped(s) && a < |s.accepts|
  {
    var p := s.accepts[a];
    match p
    case Starting => ReadStopping(a, GoOn)
    case AtTop => ReadStopping(a, GoOn)
    case Accepted => ReadStopping(a, GoOn)
    case Retrying => ReadStopping(a, GoOn)
    case Timed(_) => ReadStopping(a, GoOn)
    case Admitting => Admit(a, s.home[a])
    case Ticketing(_, _) => Construct(a)
    case Launching(_) => Launch(a, false)
    case Unwinding(c) =>
      if c < |s.conns| && s.conns[c].stage.Leaving? then Refund(c)
      else if c < |s.conns| && s.conns[c].stage.Reset? then Retire(c) else Unwound(a)
    case Ending => Finish(a)
    case _ =>
      match s.busy[s.home[a]]
      case Session(c) => StartBody(c)
      case Walker => WalkEnd(s.home[a])
      case _ => if p == Accepting(Pending) || p == Timing(Pending) then StopOnOwner(a) else Resume(a)
  }

  // How many such steps that takes.
  function Distance(s: State, a: nat): nat
    requires Shaped(s) && a < |s.accepts|
  {
    var p := s.accepts[a];
    if p.Finished? then 0
    else if p.Ending? then 1
    else if p.Launching? then 3
    else if p.Ticketing? then 4
    else if p.Admitting? then 5
    else if p.Unwinding? then
      if p.c < |s.conns| && s.conns[p.c].stage.Leaving? then 5
      else if p.c < |s.conns| && s.conns[p.c].stage.Reset? then 4 else 3
    else if OnLoop(p) then 2
    else (if p == Accepting(Pending) || p == Timing(Pending) then 4 else 3)
         + (if s.busy[s.home[a]] == Nobody then 0 else 1)
  }

  ghost predicate Nearer(s: State, t: State, a: nat)
    requires Shaped(s) && a < |s.accepts|
  {
    Shaped(t) ==>
      a < |t.accepts| && (t.posted[a] || t.closed[a]) && !Stranded(t, a) && Distance(t, a) < Distance(s, a)
  }

  // The step it takes is one of its own ...
  lemma NextOnLoop(s: State, a: nat)
    requires Shaped(s) && HandInv(s) && BarrierInv(s) && OccupantInv(s) && a < |s.accepts| && OnLoop(s.accepts[a])
    requires s.posted[a] || s.closed[a]
    ensures Enabled(s, Next(s, a))
    ensures Nearer(s, Do(s, Next(s, a)), a)
  {
    assert s.stopping[a];
    if s.accepts[a].Unwinding? {
      NextUnwinding(s, a);
    }
  }

  lemma NextUnwinding(s: State, a: nat)
    requires Shaped(s) && OccupantInv(s) && a < |s.accepts| && s.accepts[a].Unwinding?
    requires s.posted[a] || s.closed[a]
    ensures Enabled(s, Next(s, a))
    ensures Nearer(s, Do(s, Next(s, a)), a)
  {
  }

  // ... or, while it is suspended, one that frees its loop ...
  lemma NextOccupied(s: State, a: nat)
    requires Shaped(s) && OccupantInv(s) && a < |s.accepts| && !OnLoop(s.accepts[a]) && !s.accepts[a].Finished?
    requires s.posted[a] || s.closed[a]
    requires s.busy[s.home[a]] != Nobody && !Stranded(s, a)
    ensures Enabled(s, Next(s, a))
    ensures Nearer(s, Do(s, Next(s, a)), a)
  {
  }

  // ... or closes its acceptor or resumes it.
  lemma NextFree(s: State, a: nat)
    requires Shaped(s) && BarrierInv(s) && a < |s.accepts| && !OnLoop(s.accepts[a]) && !s.accepts[a].Finished?
    requires s.posted[a] || s.closed[a]
    requires s.busy[s.home[a]] == Nobody && !Stranded(s, a)
    ensures Enabled(s, Next(s, a))
    ensures Nearer(s, Do(s, Next(s, a)), a)
  {
  }

  // Whether the wait of stop() for accept loop a can end: in every reachable state in which its close is
  // posted or done, whatever else has happened, some continuation finishes the loop if and only if it is
  // not stranded. Then at most five steps do.
  lemma BarrierCanEndIff(s: State, steps: seq<Step>, a: nat)
    requires Init(s) && Runs(s, steps) && Shaped(After(s, steps)) && a < |After(s, steps).accepts|
    requires After(s, steps).posted[a] || After(s, steps).closed[a]
    ensures (exists more :: EndsBy(After(s, steps), more, a)) <==> !Stranded(After(s, steps), a)
    ensures !Stranded(After(s, steps), a) ==> exists more :: EndsBy(After(s, steps), more, a) && |more| <= 5
  {
    hide Do, Enabled, Distance, Stranded;
    NoLoose(s.accepts);
    RunKeepsOccupants(s, steps);
    hide OccupantInv, Inv, Init;
    var t := After(s, steps);
    if !Stranded(t, a) {
      var more := Drive(t, a);
      assert EndsBy(t, more, a);
    } else {
      forall more | Runs(t, more) ensures !EndsBy(t, more, a) {
        StaysStranded(t, more, a);
      }
    }
  }

  ghost predicate EndsBy(s: State, more: seq<Step>, a: nat) {
    Runs(s, more) && a < |After(s, more).accepts| && After(s, more).accepts[a].Finished?
  }

  // Nothing is stranded.
  ghost predicate Unstranded(s: State) {
    Shaped(s) && forall a :: 0 <= a < |s.accepts| ==> !Stranded(s, a)
  }

  // Driving one loop to its end leaves stop() and the other accept loops where they are.
  ghost predicate Apart(s: State, t: State, a: nat) {
    && t.stopper == s.stopper && t.halted == s.halted && t.home == s.home && |t.accepts| == |s.accepts|
    && forall b :: 0 <= b < |s.accepts| && b != a ==> t.accepts[b] == s.accepts[b]
  }

  lemma NextIsApart(s: State, a: nat)
    requires Shaped(s) && a < |s.accepts| && Enabled(s, Next(s, a))
    ensures Apart(s, Do(s, Next(s, a)), a)
  {
    var step := Next(s, a);
    assert IsAcceptStep(step) || IsConnStep(step) || step.WalkEnd?;
    assert IsAcceptStep(step) ==> step.a == a;
    hide Next;
    ApartStep(s, step, a);
  }

  lemma ApartStep(s: State, step: Step, a: nat)
    requires Enabled(s, step) && a < |s.accepts|
    requires (IsAcceptStep(step) && step.a == a) || IsConnStep(step) || step.WalkEnd?
    ensures Apart(s, Do(s, step), a)
  {
    if IsAcceptStep(step) {
      assert Do(s, step) == DoAccept(s, step);
    } else if IsConnStep(step) {
      assert Do(s, step) == DoConn(s, step);
    }
  }

  lemma {:induction false} Drive(s: State, a: nat) returns (more: seq<Step>)
    requires Inv(s) && OccupantInv(s) && a < |s.accepts| && (s.posted[a] || s.closed[a]) && !Stranded(s, a)
    ensures |more| <= Distance(s, a) <= 5 && EndsBy(s, more, a)
    ensures Inv(After(s, more)) && OccupantInv(After(s, more)) && Apart(s, After(s, more), a)
    decreases Distance(s, a)
  {
    InvIsShaped(s);
    FiveAtMost(s, a);
    hide Do, Enabled, Next, Stranded, Inv, OccupantInv, Distance, Shaped;
    if s.accepts[a].Finished? {
      more := [];
    } else {
      var step := Next(s, a);
      NextIsEnabled(s, a);
      NextIsApart(s, a);
      Keeps(s, step);
      assert Shaped(Do(s, step)) by { InvIsShaped(Do(s, step)); }
      hide Nearer;
      var rest := Drive(Do(s, step), a);
      ApartThen(s, Do(s, step), After(Do(s, step), rest), a);
      hide Apart;
      more := [step] + rest;
      assert more[1..] == rest;
    }
  }

  lemma FiveAtMost(s: State, a: nat)
    requires Shaped(s) && a < |s.accepts|
    ensures Distance(s, a) <= 5
  {
  }

  lemma ApartThen(s: State, t: State, u: State, a: nat)
    requires Apart(s, t, a) && Apart(t, u, a)
    ensures Apart(s, u, a)
  {
  }

  lemma InvIsShaped(s: State)
    requires Inv(s)
    ensures Shaped(s)
  {
  }

  // A stranded loop stays stranded, and a stop() that has come to it waits forever.
  lemma {:induction false} StaysStranded(s: State, more: seq<Step>, a: nat)
    requires Inv(s) && Runs(s, more) && a < |s.accepts| && Stranded(s, a)
    ensures var t := After(s, more);
            && Shaped(t) && a < |t.accepts| && Stranded(t, a) && !t.accepts[a].Finished?
            && (s.stopper == Joining(a) ==> t.stopper == Joining(a))
    decreases |more|
  {
    hide Do, Enabled;
    if more != [] {
      StepKeeps(s, more[0]);
      LoopsStay(s, more[0]);
      StillSuspended(s, more[0], a);
      if s.stopper == Joining(a) {
        StillJoining(s, more[0], a);
      }
      StaysStranded(Do(s, more[0]), more[1..], a);
    }
  }

  lemma LoopsStay(s: State, step: Step)
    requires Enabled(s, step)
    ensures Do(s, step).home == s.home && |Do(s, step).halted| == |s.halted|
    ensures forall r :: 0 <= r < |s.halted| && s.halted[r] ==> Do(s, step).halted[r]
  {
    if IsAcceptStep(step) {
      assert Do(s, step).halted == s.halted;
    } else {
      hide DoAccept;
    }
  }

  lemma StillSuspended(s: State, step: Step, a: nat)
    requires Enabled(s, step) && a < |s.accepts| && Stranded(s, a)
    ensures var t := Do(s, step); a < |t.accepts| && !OnLoop(t.accepts[a]) && !t.accepts[a].Finished?
  {
    if IsAcceptStep(step) && step.a == a {
      assert step.CompleteAccept? || step.CompleteTimer?;
    } else {
      OthersStay(s, step, a);
    }
  }

  lemma StillJoining(s: State, step: Step, a: nat)
    requires Enabled(s, step) && a < |s.accepts| && Stranded(s, a) && s.stopper == Joining(a)
    ensures Do(s, step).stopper == Joining(a)
  {
  }

  // The steps of accept loop a's own loop: its coroutine's, stop_on_owner, and those that what occupies
  // the loop has yet to take. Completions of waits come from outside.
  predicate LoopStep(s: State, step: Step, a: nat)
    requires Shaped(s) && a < |s.accepts|
  {
    || (IsAcceptStep(step) && step.a == a && !step.CompleteAccept? && !step.CompleteTimer?)
    || step == WalkEnd(s.home[a])
    || (step.StartBody? && s.busy[s.home[a]] == Session(step.c))
    || ((step.Refund? || step.Retire?) && s.accepts[a] == Unwinding(step.c))
  }

  // And the loop does not rest before it has: in every reachable state in which the close is posted or
  // done and the loop has no step left to take, the accept loop is finished, or it is stranded.
  lemma QuietMeansFinished(s: State, steps: seq<Step>, a: nat)
    requires Init(s) && Runs(s, steps) && Shaped(After(s, steps)) && a < |After(s, steps).accepts|
    requires After(s, steps).posted[a] || After(s, steps).closed[a]
    requires forall step :: LoopStep(After(s, steps), step, a) ==> !Enabled(After(s, steps), step)
    ensures After(s, steps).accepts[a].Finished? <==> !Stranded(After(s, steps), a)
  {
    hide Do, Enabled, Distance;
    NoLoose(s.accepts);
    RunKeepsOccupants(s, steps);
    var t := After(s, steps);
    if !t.accepts[a].Finished? && !Stranded(t, a) {
      NextIsEnabled(t, a);
      NextIsLoopStep(t, a);
    }
  }

  // It does happen: an accept is pending, the host stops the loop, and then stop() is called. stop()
  // comes to wait for the accept loop and, by StaysStranded, waits forever.
  lemma HaltStrandsStop(s: State) returns (steps: seq<Step>)
    requires Init(s) && |s.sessions| == 1 && |s.home| == 1
    ensures Runs(s, steps) && Shaped(After(s, steps)) && |After(s, steps).accepts| == 1
    ensures After(s, steps).stopper == Joining(0) && After(s, steps).posted[0] && Stranded(After(s, steps), 0)
  {
    var halted := s.(accepts := [Accepting(Pending)], halted := [true]);
    var joining := halted.(stopping := [true], posted := [true], stopper := Joining(0),
                           asked := halted.asked.(aborting := [true]));
    assert Runs(joining, []) && After(joining, []) == joining;
    hide Runs, After;
    steps := StopComes(halted, joining);
    steps := AcceptPends(s, halted, steps);
  }

  lemma AcceptPends(s: State, t: State, rest: seq<Step>) returns (steps: seq<Step>)
    requires Init(s) && |s.sessions| == 1 && |s.home| == 1
    requires t == s.(accepts := [Accepting(Pending)], halted := [true]) && Runs(t, rest)
    ensures Runs(s, steps) && After(s, steps) == After(t, rest)
  {
    hide Runs, After;
    assert s.busy == [Nobody] && s.accepts == [Spawned] && s.halted == [false];
    var starting := s.(accepts := [Starting], busy := [Acceptor(0)]);
    var pending := s.(accepts := [Accepting(Pending)]);
    steps := OneMore(pending, Halt(0), t, rest);
    steps := AcceptStarts(starting, pending, steps);
    steps := OneMore(s, Resume(0), starting, steps);
  }

  lemma AcceptStarts(s: State, t: State, rest: seq<Step>) returns (steps: seq<Step>)
    requires Shaped(s) && |s.sessions| == 1 && |s.home| == 1 && !s.stopping[0] && !s.closed[0]
    requires s.accepts == [Starting] && s.busy == [Acceptor(0)]
    requires t == s.(accepts := [Accepting(Pending)], busy := [Nobody]) && Runs(t, rest)
    ensures Runs(s, steps) && After(s, steps) == After(t, rest)
  {
    hide Runs, After;
    var atTop := s.(accepts := [AtTop]);
    steps := OneMore(atTop, ReadStopping(0, GoOn), t, rest);
    steps := OneMore(s, ReadStopping(0, GoOn), atTop, steps);
  }

  lemma StopComes(s: State, t: State) returns (steps: seq<Step>)
    requires Shaped(s) && |s.sessions| == 1 && |s.home| == 1 && s.stopper == NotCalled && Stranded(s, 0)
    requires t == s.(stopping := [true], posted := [true], stopper := Joining(0), asked := s.asked.(aborting := [true]))
    requires Runs(t, [])
    ensures Runs(s, steps) && After(s, steps) == After(t, [])
  {
    hide Runs, After;
    var asked := s.(asked := s.asked.(aborting := [true]));
    steps := StopPosts(asked.(stopper := Signalling(0)), t);
    steps := OneMore(asked.(stopper := Aborting(1)), Advance, asked.(stopper := Signalling(0)), steps);
    steps := OneMore(s.(stopper := Aborting(0)), Advance, asked.(stopper := Aborting(1)), steps);
    steps := OneMore(s, Advance, s.(stopper := Aborting(0)), steps);
  }

  lemma StopPosts(s: State, t: State) returns (steps: seq<Step>)
    requires Shaped(s) && |s.home| == 1 && s.stopper == Signalling(0)
    requires t == s.(stopping := [true], posted := [true], stopper := Joining(0)) && Runs(t, [])
    ensures Runs(s, steps) && After(s, steps) == After(t, [])
  {
    hide Runs, After;
    var told := s.(stopping := [true], stopper := PostingStop(0));
    steps := OneMore(t.(stopper := Signalling(1)), Advance, t, []);
    steps := OneMore(told, Advance, t.(stopper := Signalling(1)), steps);
    steps := OneMore(s, Advance, told, steps);
  }

  lemma OneMore(s: State, step: Step, t: State, rest: seq<Step>) returns (steps: seq<Step>)
    requires Enabled(s, step) && Do(s, step) == t && Runs(t, rest)
    ensures Runs(s, steps) && After(s, steps) == After(t, rest)
  {
    steps := [step] + rest;
    assert steps[1..] == rest;
  }

  lemma NextIsEnabled(s: State, a: nat)
    requires Inv(s) && OccupantInv(s) && a < |s.accepts| && (s.posted[a] || s.closed[a])
    requires !s.accepts[a].Finished? && !Stranded(s, a)
    ensures Enabled(s, Next(s, a)) && Nearer(s, Do(s, Next(s, a)), a)
  {
    hide Do, Enabled, Next, Nearer;
    if OnLoop(s.accepts[a]) {
      NextOnLoop(s, a);
    } else if s.busy[s.home[a]] == Nobody {
      NextFree(s, a);
    } else {
      NextOccupied(s, a);
    }
  }

  lemma NextIsLoopStep(s: State, a: nat)
    requires Shaped(s) && a < |s.accepts|
    ensures LoopStep(s, Next(s, a), a)
  {
  }

  // ---------- It has ended ----------

  lemma FinishedStays(s: State, step: Step, a: nat)
    requires Enabled(s, step) && a < |s.accepts| && s.accepts[a].Finished?
    ensures !OwnStep(step, a)
    ensures a < |Do(s, step).accepts| && Do(s, step).accepts[a].Finished?
  {
    LeftStays(s, step, a);
  }

  // Once its control is finished an accept loop takes no further step of its own in any continuation, so
  // it starts no further session.
  lemma {:induction false} FinishedForGood(s: State, steps: seq<Step>, a: nat)
    requires Runs(s, steps) && a < |s.accepts| && s.accepts[a].Finished?
    ensures a < |After(s, steps).accepts| && After(s, steps).accepts[a].Finished?
    ensures forall k :: 0 <= k < |steps| ==> !OwnStep(steps[k], a)
    decreases |steps|
  {
    hide Do, Enabled;
    if steps != [] {
      FinishedStays(s, steps[0], a);
      FinishedForGood(Do(s, steps[0]), steps[1..], a);
    }
  }
}

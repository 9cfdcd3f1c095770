/**
 What becomes of what comes in: every connection accepted is launched, refused by a full bound or turned
 away by a stop; every launch ends in a call of the session or in one of the ways it can be dropped; every
 accept error goes through retry(), and every pause it asks for is taken. The books balance over every run
 of the server machine.
 */
module Ledger {
  import opened Server

  // How many of xs satisfy p.
  function Tally<T>(xs: seq<T>, p: T -> bool): nat {
    if xs == [] then 0 else (if p(xs[0]) then 1 else 0) + Tally(xs[1..], p)
  }

  lemma {:induction false} TallyUpdate<T>(xs: seq<T>, i: nat, x: T, p: T -> bool)
    requires i < |xs|
    ensures Tally(xs[i := x], p) == Tally(xs, p) - (if p(xs[i]) then 1 else 0) + (if p(x) then 1 else 0)
  {
    if i == 0 {
      assert xs[i := x][1..] == xs[1..];
    } else {
      assert xs[i := x][1..] == xs[1..][i - 1 := x];
      TallyUpdate(xs[1..], i - 1, x, p);
    }
  }

  lemma {:induction false} TallyAppend<T>(xs: seq<T>, x: T, p: T -> bool)
    ensures Tally(xs + [x], p) == Tally(xs, p) + (if p(x) then 1 else 0)
  {
    if xs == [] {
      assert xs + [x] == [x];
    } else {
      assert (xs + [x])[1..] == xs[1..] + [x];
      TallyAppend(xs[1..], x, p);
    }
  }

  lemma {:induction false} TallyNone<T>(xs: seq<T>, p: T -> bool)
    requires forall i :: 0 <= i < |xs| ==> !p(xs[i])
    ensures Tally(xs, p) == 0
  {
    if xs != [] {
      TallyNone(xs[1..], p);
    }
  }

  // How often a step of the run was such an event.
  ghost function Times(s: State, steps: seq<Step>, e: (State, Step) -> bool): nat
    requires Runs(s, steps)
    decreases |steps|
  {
    if steps == [] then 0 else One(e(s, steps[0])) + Times(Do(s, steps[0]), steps[1..], e)
  }

  function One(b: bool): nat {
    if b then 1 else 0
  }

  // The step is one of an accept loop, or of a connection, that there is.
  predicate OfLoop(s: State, step: Step) {
    IsAcceptStep(step) && step.a < |s.accepts|
  }

  predicate OfConn(s: State, step: Step) {
    IsConnStep(step) && step.c < |s.conns|
  }

  lemma AcceptStepMoves(s: State, step: Step)
    requires Enabled(s, step) && IsAcceptStep(step)
    ensures step.a < |s.accepts| == |Do(s, step).accepts|
    ensures Do(s, step).accepts == s.accepts[step.a := Do(s, step).accepts[step.a]]
    ensures |Do(s, step).conns| == |s.conns| + One(step.Construct?)
  {
  }

  lemma OtherStepsStay(s: State, step: Step)
    requires Enabled(s, step) && !IsAcceptStep(step)
    ensures Do(s, step).accepts == s.accepts && |Do(s, step).conns| == |s.conns|
  {
  }

  // ---------- Connections accepted ----------

  // async_accept completes with a peer.
  predicate PeerComes(s: State, step: Step) {
    step.CompleteAccept? && step.ok
  }

  // try_enter is refused: the bound is set and full.
  predicate RefusedFull(s: State, step: Step) {
    step.Admit? && s.bounded && s.active >= s.maximum
  }

  // The loop finds `stopping` after the accept.
  predicate TurnedAway(s: State, step: Step) {
    step.ReadStopping? && OfLoop(s, step) && s.accepts[step.a].Accepted? && step.a < |s.stopping| && s.stopping[step.a]
  }

  // The accept loop has a peer and no ticket for it yet.
  predicate HoldsPeer(p: Accept) {
    p == Accepting(Ready(true)) || p.Accepted? || p.Admitting? || p.Ticketing?
  }

  lemma PeerStep(s: State, step: Step)
    requires Enabled(s, step)
    ensures Tally(Do(s, step).accepts, HoldsPeer) + |Do(s, step).conns|
            + One(RefusedFull(s, step)) + One(TurnedAway(s, step)) ==
            Tally(s.accepts, HoldsPeer) + |s.conns| + One(PeerComes(s, step))
  {
    if IsAcceptStep(step) {
      AcceptStepMoves(s, step);
      TallyUpdate(s.accepts, step.a, Do(s, step).accepts[step.a], HoldsPeer);
      hide Tally;
      PeerMove(s, step);
    } else {
      OtherStepsStay(s, step);
      hide Do, Enabled;
    }
  }

  lemma PeerMove(s: State, step: Step)
    requires Enabled(s, step) && IsAcceptStep(step) && step.a < |Do(s, step).accepts|
    ensures One(HoldsPeer(Do(s, step).accepts[step.a])) + One(step.Construct?)
            + One(RefusedFull(s, step)) + One(TurnedAway(s, step)) ==
            One(HoldsPeer(s.accepts[step.a])) + One(PeerComes(s, step))
  {
  }

  lemma {:induction false} PeersBalance(s: State, steps: seq<Step>)
    requires Runs(s, steps)
    ensures Tally(After(s, steps).accepts, HoldsPeer) + |After(s, steps).conns|
            + Times(s, steps, RefusedFull) + Times(s, steps, TurnedAway) ==
            Tally(s.accepts, HoldsPeer) + |s.conns| + Times(s, steps, PeerComes)
    decreases |steps|
  {
    hide Do, Enabled, Tally;
    if steps != [] {
      PeerStep(s, steps[0]);
      PeersBalance(Do(s, steps[0]), steps[1..]);
    }
  }

  // In every run, each peer accepted has got a ticket, was refused by a full bound, was turned away by a
  // stop, or is still in the accept loop's hands. None is dropped otherwise.
  lemma EveryPeerAccounted(s: State, steps: seq<Step>)
    requires Init(s) && Runs(s, steps)
    ensures Times(s, steps, PeerComes) ==
            |After(s, steps).conns| + Times(s, steps, RefusedFull) + Times(s, steps, TurnedAway)
            + Tally(After(s, steps).accepts, HoldsPeer)
  {
    TallyNone(s.accepts, HoldsPeer);
    hide Do, Enabled, Tally;
    PeersBalance(s, steps);
  }

  // ---------- Tickets ----------

  // The user's session is called.
  predicate Called(s: State, step: Step) {
    Enabled(s, step) && step.StartBody? && step.c < |Do(s, step).conns| && Do(s, step).conns[step.c].stage.Body?
  }

  // run_session finds its control aborted: the abort walk of its reactor has begun.
  predicate TooLate(s: State, step: Step) {
    step.StartBody? && OfConn(s, step) && s.conns[step.c].reactor < |s.walked| && s.walked[s.conns[step.c].reactor]
  }

  // The launch, here or on the session's own loop, throws bad_alloc.
  predicate LaunchFails(s: State, step: Step) {
    (step.Launch? && step.fails) || (step.Hop? && step.fails)
  }

  // A frame or handler is destroyed before it ran.
  predicate Unrun(s: State, step: Step) {
    step.Leave? && OfConn(s, step) && (s.conns[step.c].stage.Posted? || s.conns[step.c].stage.Queued?)
  }

  // Its session may still be called.
  predicate Waits(k: Conn) {
    k.stage.InHand? || k.stage.Posted? || k.stage.Queued? || k.stage.Entered?
  }

  ghost function Ends(s: State, step: Step): nat {
    One(Called(s, step)) + One(TooLate(s, step)) + One(LaunchFails(s, step)) + One(Unrun(s, step))
  }

  lemma TicketStep(s: State, step: Step)
    requires Inv(s) && Enabled(s, step)
    ensures Tally(Do(s, step).conns, Waits) + Ends(s, step) == Tally(s.conns, Waits) + |Do(s, step).conns| - |s.conns|
  {
    if IsConnStep(step) {
      ConnCounts(s, step);
      TallyUpdate(s.conns, step.c, Do(s, step).conns[step.c], Waits);
      hide Tally;
      ConnEnds(s, step);
    } else if step.Launch? {
      var c := s.accepts[step.a].c;
      TallyUpdate(s.conns, c, Do(s, step).conns[c], Waits);
    } else if step.Construct? {
      TallyAppend(s.conns, Do(s, step).conns[|s.conns|], Waits);
    } else {
      ConnsStay(s, step);
    }
  }

  lemma ConnsStay(s: State, step: Step)
    requires Enabled(s, step) && !IsConnStep(step) && !step.Launch? && !step.Construct?
    ensures Do(s, step).conns == s.conns
  {
  }

  lemma ConnEnds(s: State, step: Step)
    requires LoopInvOf(s) && Enabled(s, step) && IsConnStep(step) && step.c < |Do(s, step).conns|
    ensures One(Waits(Do(s, step).conns[step.c])) + Ends(s, step) == One(Waits(s.conns[step.c]))
  {
  }

  ghost predicate LoopInvOf(s: State) {
    Shaped(s) && LoopInv(s)
  }

  ghost function AllEnds(s: State, steps: seq<Step>): nat
    requires Runs(s, steps)
  {
    Times(s, steps, Called) + Times(s, steps, TooLate) + Times(s, steps, LaunchFails) + Times(s, steps, Unrun)
  }

  lemma {:induction false} TicketsBalance(s: State, steps: seq<Step>)
    requires Inv(s) && Runs(s, steps)
    ensures Tally(After(s, steps).conns, Waits) + AllEnds(s, steps) ==
            Tally(s.conns, Waits) + |After(s, steps).conns| - |s.conns|
    decreases |steps|
  {
    hide Do, Enabled, Tally, Inv;
    if steps != [] {
      StepKeeps(s, steps[0]);
      TicketStep(s, steps[0]);
      TicketsBalance(Do(s, steps[0]), steps[1..]);
    }
  }

  // In every run, each ticket made has led to a call of the user's session, or was dropped because the
  // abort walk had begun, a launch failed or its frame was destroyed unrun, or still waits for one of these.
  lemma EveryTicketAccounted(s: State, steps: seq<Step>)
    requires Init(s) && Runs(s, steps)
    ensures |After(s, steps).conns| ==
            Times(s, steps, Called) + Times(s, steps, TooLate) + Times(s, steps, LaunchFails) + Times(s, steps, Unrun)
            + Tally(After(s, steps).conns, Waits)
  {
    assert Inv(s) by { Reachable(s, []); }
    hide Do, Enabled;
    TicketsBalance(s, steps);
  }

  // ---------- Errors and pauses ----------

  // An accept error or a failed launch reaches retry().
  predicate ErrorComes(s: State, step: Step) {
    step.Unwound? || (step.Resume? && OfLoop(s, step) && s.accepts[step.a] == Accepting(Ready(false)))
  }

  predicate RetryDecides(s: State, step: Step) {
    step.ReadStopping? && OfLoop(s, step) && s.accepts[step.a].Retrying?
  }

  // retry() decides on a pause.
  predicate PauseAsked(s: State, step: Step) {
    RetryDecides(s, step) && step.choice.Pause? && step.a < |s.stopping| && !s.stopping[step.a]
  }

  // The coroutine resumes from its retry timer.
  predicate PauseEnds(s: State, step: Step) {
    step.Resume? && OfLoop(s, step) && s.accepts[step.a].Timing?
  }

  predicate InRetry(p: Accept) {
    p.Retrying?
  }

  predicate InPause(p: Accept) {
    p.Timing?
  }

  lemma RetryStep(s: State, step: Step)
    requires Enabled(s, step)
    ensures Tally(Do(s, step).accepts, InRetry) + One(RetryDecides(s, step)) ==
            Tally(s.accepts, InRetry) + One(ErrorComes(s, step))
    ensures Tally(Do(s, step).accepts, InPause) + One(PauseEnds(s, step)) ==
            Tally(s.accepts, InPause) + One(PauseAsked(s, step))
  {
    if IsAcceptStep(step) {
      AcceptStepMoves(s, step);
      TallyUpdate(s.accepts, step.a, Do(s, step).accepts[step.a], InRetry);
      TallyUpdate(s.accepts, step.a, Do(s, step).accepts[step.a], InPause);
      hide Tally;
      RetryMove(s, step);
    } else {
      OtherStepsStay(s, step);
      hide Do, Enabled;
    }
  }

  lemma RetryMove(s: State, step: Step)
    requires Enabled(s, step) && IsAcceptStep(step) && step.a < |Do(s, step).accepts|
    ensures One(InRetry(Do(s, step).accepts[step.a])) + One(RetryDecides(s, step)) ==
            One(InRetry(s.accepts[step.a])) + One(ErrorComes(s, step))
    ensures One(InPause(Do(s, step).accepts[step.a])) + One(PauseEnds(s, step)) ==
            One(InPause(s.accepts[step.a])) + One(PauseAsked(s, step))
  {
    if step.ReadStopping? {
      RetryRead(s, step.a, step.choice);
    }
  }

  lemma RetryRead(s: State, a: nat, choice: Choice)
    requires Enabled(s, ReadStopping(a, choice)) && a < |Do(s, ReadStopping(a, choice)).accepts|
    ensures var step, p := ReadStopping(a, choice), Do(s, ReadStopping(a, choice)).accepts[a];
            && !InRetry(p) && (InRetry(s.accepts[a]) <==> RetryDecides(s, step))
            && !InPause(s.accepts[a]) && (InPause(p) <==> PauseAsked(s, step))
  {
  }

  lemma {:induction false} RetriesBalance(s: State, steps: seq<Step>)
    requires Runs(s, steps)
    ensures Tally(After(s, steps).accepts, InRetry) + Times(s, steps, RetryDecides) ==
            Tally(s.accepts, InRetry) + Times(s, steps, ErrorComes)
    ensures Tally(After(s, steps).accepts, InPause) + Times(s, steps, PauseEnds) ==
            Tally(s.accepts, InPause) + Times(s, steps, PauseAsked)
    decreases |steps|
  {
    hide Do, Enabled, Tally;
    if steps != [] {
      RetryStep(s, steps[0]);
      RetriesBalance(Do(s, steps[0]), steps[1..]);
    }
  }

  // In every run, each accept error and each failed launch goes through retry(), and each pause retry()
  // asks for is taken, or under way.
  lemma EveryErrorRetried(s: State, steps: seq<Step>)
    requires Init(s) && Runs(s, steps)
    ensures Times(s, steps, ErrorComes) == Times(s, steps, RetryDecides) + Tally(After(s, steps).accepts, InRetry)
    ensures Times(s, steps, PauseAsked) == Times(s, steps, PauseEnds) + Tally(After(s, steps).accepts, InPause)
  {
    TallyNone(s.accepts, InRetry);
    TallyNone(s.accepts, InPause);
    hide Do, Enabled, Tally;
    RetriesBalance(s, steps);
  }

  // ---------- The loop goes on ----------

  // The coroutine of loop a throws: its listener could not be opened, or retry() was given a fatal error.
  predicate Dies(s: State, step: Step, a: nat) {
    step == ReadStopping(a, Fail) && OfLoop(s, step) && (s.accepts[a].Starting? || s.accepts[a].Retrying?)
  }

  ghost predicate NeverDies(s: State, steps: seq<Step>, a: nat)
    requires Runs(s, steps)
    decreases |steps|
  {
    steps == [] || (!Dies(s, steps[0], a) && NeverDies(Do(s, steps[0]), steps[1..], a))
  }

  predicate GoesOn(p: Accept) {
    !p.Ending? && !p.Finished? && p != Timed(false) && p != Timing(Ready(false))
  }

  lemma GoesOnStep(s: State, step: Step, a: nat)
    requires Shaped(s) && BarrierInv(s) && Enabled(s, step) && a < |s.accepts| && !Dies(s, step, a)
    ensures a < |Do(s, step).accepts| && a < |Do(s, step).stopping|
    ensures !Do(s, step).stopping[a] ==> !s.stopping[a]
    ensures !s.stopping[a] && GoesOn(s.accepts[a]) ==> GoesOn(Do(s, step).accepts[a])
  {
    StoppingStays(s, step);
    if IsAcceptStep(step) {
      AcceptStepMoves(s, step);
      if step.a == a {
        if !s.stopping[a] && GoesOn(s.accepts[a]) {
          GoesOnMove(s, step);
        }
      }
    } else {
      OtherStepsStay(s, step);
    }
    hide Do, Enabled, GoesOn;
  }

  lemma GoesOnMove(s: State, step: Step)
    requires Shaped(s) && BarrierInv(s) && Enabled(s, step) && IsAcceptStep(step) && !Dies(s, step, step.a)
    requires !s.stopping[step.a] && GoesOn(s.accepts[step.a])
    ensures step.a < |Do(s, step).accepts| && GoesOn(Do(s, step).accepts[step.a])
  {
    if step.ReadStopping? {
      GoesOnRead(s, step.a, step.choice);
    }
  }

  lemma GoesOnRead(s: State, a: nat, choice: Choice)
    requires Enabled(s, ReadStopping(a, choice)) && !Dies(s, ReadStopping(a, choice), a)
    requires !s.stopping[a] && GoesOn(s.accepts[a])
    ensures var t := Do(s, ReadStopping(a, choice)); a < |t.accepts| && GoesOn(t.accepts[a])
  {
  }

  lemma StoppingStays(s: State, step: Step)
    requires Enabled(s, step)
    ensures |Do(s, step).stopping| == |s.stopping|
    ensures forall a :: 0 <= a < |s.stopping| && s.stopping[a] ==> Do(s, step).stopping[a]
  {
    if step.Advance? {
      StopFrame(s);
    }
  }

  // Until it is told to stop, an accept loop goes on, whatever errors, refusals and failed launches it
  // meets, unless its listener could not be opened or an error is fatal.
  lemma AcceptLoopGoesOn(s: State, steps: seq<Step>, a: nat)
    requires Init(s) && Runs(s, steps) && NeverDies(s, steps, a) && a < |s.accepts|
    ensures a < |After(s, steps).accepts| && a < |After(s, steps).stopping|
    ensures !After(s, steps).stopping[a] ==> !After(s, steps).accepts[a].Ending? && !After(s, steps).accepts[a].Finished?
  {
    assert Inv(s) by { Reachable(s, []); }
    hide Do, Enabled;
    LoopGoesOn(s, steps, a);
  }

  lemma {:induction false} LoopGoesOn(s: State, steps: seq<Step>, a: nat)
    requires Inv(s) && Runs(s, steps) && NeverDies(s, steps, a) && a < |s.accepts|
    requires !s.stopping[a] ==> GoesOn(s.accepts[a])
    ensures a < |After(s, steps).accepts| && a < |After(s, steps).stopping|
    ensures !After(s, steps).stopping[a] ==> GoesOn(After(s, steps).accepts[a])
    decreases |steps|
  {
    if steps != [] {
      StepKeeps(s, steps[0]);
      GoesOnStep(s, steps[0], a);
      hide Do, Enabled;
      LoopGoesOn(Do(s, steps[0]), steps[1..], a);
    }
  }

  // A session's frame is spawned on its own loop: by its own acceptor, or by the hop to it.
  lemma SpawnedOnItsLoop(s: State, steps: seq<Step>, next: Step, c: nat)
    requires Init(s) && Runs(s, steps) && Enabled(After(s, steps), next) && c < |After(s, steps).conns|
    requires var t := Do(After(s, steps), next);
             c < |t.conns| && !After(s, steps).conns[c].stage.Queued? && t.conns[c].stage.Queued?
    ensures var t := After(s, steps);
            next == Hop(c, false)
            || (next.Launch? && next.a < |t.home| && t.home[next.a] == t.conns[c].reactor)
  {
    Spawns(After(s, steps), next, c);
  }

  lemma Spawns(s: State, step: Step, c: nat)
    requires Enabled(s, step) && c < |s.conns| && c < |Do(s, step).conns|
    requires !s.conns[c].stage.Queued? && Do(s, step).conns[c].stage.Queued?
    ensures step == Hop(c, false) || (step.Launch? && step.a < |s.home| && s.home[step.a] == s.conns[c].reactor)
  {
    if IsConnStep(step) {
      ConnCounts(s, step);
    } else if !step.Launch? {
      EarlierConnsStay(s, step);
      hide Do, Enabled;
    }
  }

  lemma EarlierConnsStay(s: State, step: Step)
    requires Enabled(s, step) && !IsConnStep(step) && !step.Launch?
    ensures |Do(s, step).conns| >= |s.conns| && forall c :: 0 <= c < |s.conns| ==> Do(s, step).conns[c] == s.conns[c]
  {
    if !step.Construct? {
      ConnsStay(s, step);
      hide Do, Enabled;
    }
  }
}

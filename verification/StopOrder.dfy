/**
 What TcpServer::stop() does to the sessions, and when: every reactor is asked to abort, and every one is
 forced exactly if some session outlived the first grace.
 */
module StopOrder {
  import opened Server

  // The first scan is over and has found a session alive.
  predicate FirstGraceFailed(s: State) {
    s.stopper.Scanning? && s.stopper.round == 1 && !s.stopper.drained && s.stopper.r >= |s.sessions|
  }

  // Some state of the run, the first and the last included, is such a one.
  ghost predicate SawItFail(s: State, steps: seq<Step>)
    requires Runs(s, steps)
    decreases |steps|
  {
    FirstGraceFailed(s) || (steps != [] && SawItFail(Do(s, steps[0]), steps[1..]))
  }

  // Some wait of a scan ran into its deadline with a session alive.
  ghost predicate SawASessionStay(s: State, steps: seq<Step>)
    requires Runs(s, steps)
    decreases |steps|
  {
    steps != [] &&
    ((steps[0].GiveUp? && s.stopper.Scanning? && s.stopper.r < |s.sessions| && s.sessions[s.stopper.r] != 0)
     || SawASessionStay(Do(s, steps[0]), steps[1..]))
  }

  predicate BeforeForcing(k: Stopper) {
    !k.Forcing? && !k.Stopped? && (k.Scanning? ==> k.round == 1)
  }

  // When stop() has got past its abort_all() calls, every reactor has been asked to abort; and when it
  // ends with sessions alive, every reactor has been forced.
  lemma EveryReactorAsked(s: State, steps: seq<Step>, r: nat)
    requires Init(s) && Runs(s, steps) && Shaped(After(s, steps)) && r < |After(s, steps).sessions|
    ensures var t := After(s, steps);
            && (!t.stopper.NotCalled? && !t.stopper.Aborting? ==> t.asked.aborting[r])
            && (t.stopper == Stopped(false) ==> t.asked.forced[r])
  {
    hide Do, Enabled, Init, FlowInv, CountInv, TimeInv;
    Reachable(s, steps);
  }

  // How one step moves stop() past its force_all() calls.
  lemma ForcingStep(s: State, step: Step)
    requires Enabled(s, step)
    ensures BeforeForcing(s.stopper) && !BeforeForcing(Do(s, step).stopper) ==>
              FirstGraceFailed(s) || Do(s, step).stopper == Stopped(true)
    ensures FirstGraceFailed(s) ==> FirstGraceFailed(Do(s, step)) || Do(s, step).stopper == Forcing(0)
    ensures s.stopper == Stopped(true) ==> Do(s, step).stopper == Stopped(true)
    ensures |Do(s, step).sessions| == |s.sessions|
  {
    if step.Advance? {
      ForcingAdvance(s);
    } else if !step.AbortAll? && !step.GiveUp? {
      AskFrame(s, step);
      hide Do, Enabled;
    }
  }

  lemma ForcingAdvance(s: State)
    requires Enabled(s, Advance)
    ensures BeforeForcing(s.stopper) && !BeforeForcing(Do(s, Advance).stopper) ==>
              FirstGraceFailed(s) || Do(s, Advance).stopper == Stopped(true)
    ensures FirstGraceFailed(s) ==> Do(s, Advance).stopper == Forcing(0)
    ensures s.stopper == Stopped(true) ==> Do(s, Advance).stopper == Stopped(true)
    ensures |Do(s, Advance).sessions| == |s.sessions|
  {
  }

  lemma ForcedStep(s: State, step: Step)
    requires Enabled(s, step) && !s.stopper.Forcing?
    ensures Do(s, step).asked.forced == s.asked.forced
  {
    if !step.Advance? && !step.AbortAll? && !step.GiveUp? {
      AskFrame(s, step);
      hide Do, Enabled;
    }
  }

  // stop() forces its reactors, all of them, if and only if its first grace failed: in a run in which it
  // did not, none is forced.
  lemma StopForcesIff(s: State, steps: seq<Step>, r: nat)
    requires Init(s) && Runs(s, steps) && Shaped(After(s, steps)) && r < |After(s, steps).sessions|
    requires After(s, steps).stopper.Stopped?
    ensures After(s, steps).asked.forced[r] <==> SawItFail(s, steps)
  {
    hide Do, Enabled, FlowInv, CountInv, TimeInv;
    Reachable(s, steps);
    assert Inv(s) by { Reachable(s, []); }
    NotFailedMeansDrained(s, steps);
    FailedMeansForced(s, steps);
  }

  // A run that has not seen the first grace fail is before the forcing or has ended drained, unforced.
  lemma {:induction false} NotFailedMeansDrained(s: State, steps: seq<Step>)
    requires Inv(s) && Runs(s, steps) && NoneForced(s)
    requires BeforeForcing(s.stopper) || s.stopper == Stopped(true)
    ensures !SawItFail(s, steps) ==>
              && Shaped(After(s, steps)) && NoneForced(After(s, steps))
              && (BeforeForcing(After(s, steps).stopper) || After(s, steps).stopper == Stopped(true))
    decreases |steps|
  {
    if steps != [] {
      ForcingStep(s, steps[0]);
      ForcedStep(s, steps[0]);
      StepKeeps(s, steps[0]);
      hide Do, Enabled, Inv;
      if !FirstGraceFailed(s) {
        NotFailedMeansDrained(Do(s, steps[0]), steps[1..]);
      }
    }
  }

  // After it has failed, stop() is about to force, forcing, or past it with every reactor forced.
  lemma {:induction false} FailedMeansForced(s: State, steps: seq<Step>)
    requires Inv(s) && Runs(s, steps)
    ensures Inv(After(s, steps))
    ensures SawItFail(s, steps) && After(s, steps).stopper.Stopped? ==> AllForced(After(s, steps))
    decreases |steps|
  {
    hide Do, Enabled, FlowInv, CountInv, TimeInv;
    if steps != [] {
      StepKeeps(s, steps[0]);
      FailedMeansForced(Do(s, steps[0]), steps[1..]);
      if FirstGraceFailed(s) {
        ForcingStep(s, steps[0]);
        FailedStays(Do(s, steps[0]), steps[1..]);
      }
    }
  }

  lemma {:induction false} FailedStays(s: State, steps: seq<Step>)
    requires Inv(s) && Runs(s, steps) && (FirstGraceFailed(s) || PastForcing(s.stopper) || AllForcedAtEnd(s))
    ensures After(s, steps).stopper.Stopped? ==> Inv(After(s, steps)) && AllForced(After(s, steps))
    decreases |steps|
  {
    hide Do, Enabled, FlowInv, CountInv, TimeInv;
    if steps != [] {
      StepKeeps(s, steps[0]);
      ForcingStep(s, steps[0]);
      PastStep(s, steps[0]);
      FailedStays(Do(s, steps[0]), steps[1..]);
    }
  }

  predicate PastForcing(k: Stopper) {
    k.Forcing? || (k.Scanning? && k.round == 2)
  }

  ghost predicate AllForcedAtEnd(s: State) {
    s.stopper.Stopped? && Shaped(s) && AllForced(s)
  }

  lemma PastStep(s: State, step: Step)
    requires Inv(s) && Enabled(s, step) && Inv(Do(s, step))
    ensures PastForcing(s.stopper) ==> PastForcing(Do(s, step).stopper) || AllForcedAtEnd(Do(s, step))
    ensures AllForcedAtEnd(s) ==> AllForcedAtEnd(Do(s, step))
  {
    if !step.Advance? && !step.AbortAll? && !step.GiveUp? {
      AskFrame(s, step);
      hide Do, Enabled;
    }
  }

  // And the grace fails only for a session: a run in which no wait ran out on a living one never forces,
  // and what stop() ends with is drained.
  lemma NoSessionStaysMeansDrained(s: State, steps: seq<Step>)
    requires Init(s) && Runs(s, steps) && !SawASessionStay(s, steps)
    ensures var k := After(s, steps).stopper;
            !k.Forcing? && k != Stopped(false) && (k.Scanning? ==> k.drained)
  {
    StaysDrained(s, steps);
  }

  predicate Drained(k: Stopper) {
    !k.Forcing? && k != Stopped(false) && (k.Scanning? ==> k.drained)
  }

  lemma DrainedStep(s: State, step: Step)
    requires Enabled(s, step) && Drained(s.stopper)
    requires step.GiveUp? ==> s.sessions[s.stopper.r] == 0
    ensures Drained(Do(s, step).stopper)
  {
  }

  lemma {:induction false} StaysDrained(s: State, steps: seq<Step>)
    requires Runs(s, steps) && !SawASessionStay(s, steps) && Drained(s.stopper)
    ensures Drained(After(s, steps).stopper)
    decreases |steps|
  {
    if steps != [] {
      DrainedStep(s, steps[0]);
      hide Do, Drained;
      StaysDrained(Do(s, steps[0]), steps[1..]);
    }
  }

  // ---------- Walks, halts and the clock ----------

  ghost function Elapsed(steps: seq<Step>): nat {
    if steps == [] then 0 else (if steps[0].Pass? then steps[0].time else 0) + Elapsed(steps[1..])
  }

  lemma WalkHaltStep(s: State, step: Step)
    requires Enabled(s, step)
    ensures Do(s, step).walked == if step.WalkBegin? then s.walked[step.r := true] else s.walked
    ensures Do(s, step).halted == if step.Halt? then s.halted[step.r := true] else s.halted
    ensures Do(s, step).now == s.now + if step.Pass? then step.time else 0
    ensures step.WalkBegin? ==> step.r < |s.asked.aborting| && s.asked.aborting[step.r]
  {
    if IsAcceptStep(step) {
      assert Do(s, step) == DoAccept(s, step);
    } else if IsConnStep(step) {
      assert Do(s, step) == DoConn(s, step);
    }
  }

  // A reactor's abort walk has begun exactly if a step of the run began it, its loop is halted exactly if
  // one stopped it, and the clock shows what has passed.
  lemma {:induction false} WalksHaltsAndClock(s: State, steps: seq<Step>, r: nat)
    requires Runs(s, steps) && r < |s.walked| && r < |s.halted|
    ensures var t := After(s, steps);
            && r < |t.walked| && r < |t.halted|
            && (t.walked[r] <==> s.walked[r] || WalkBegin(r) in steps)
            && (t.halted[r] <==> s.halted[r] || Halt(r) in steps)
            && t.now == s.now + Elapsed(steps)
    decreases |steps|
  {
    if steps != [] {
      WalkHaltStep(s, steps[0]);
      hide Do, Enabled;
      assert steps == [steps[0]] + steps[1..];
      WalksHaltsAndClock(Do(s, steps[0]), steps[1..], r);
    }
  }
}

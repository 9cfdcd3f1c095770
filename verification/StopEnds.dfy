/**
 Shutdown that finishes: whether TcpServer::stop() can come to its end, from any state of any run.
 */
module StopEnds {
  import opened Server
  import opened AcceptBarrier

  // How far stop() is from its end, in phases: each call, wait and scan it has yet to make.
  function Phases(s: State): int {
    var n, m := |s.sessions|, |s.home|;
    match s.stopper
    case Stopped(_) => 0
    case Scanning(round, r, _, _) => (if round == 1 then 2 * n + 3 else 1) + n - r
    case Forcing(r) => n + 2 + n - r
    case Joining(a) => 3 * n + 4 + m - a
    case PostingStop(a) => 3 * n + m + 4 + 2 * (m - a)
    case Signalling(a) => 3 * n + m + 5 + 2 * (m - a)
    case Aborting(r) => 3 * n + 3 * m + 6 + n - r
    case NotCalled => 4 * n + 3 * m + 7
  }

  ghost predicate Good(s: State) {
    Inv(s) && OccupantInv(s) && Unstranded(s)
  }

  lemma {:induction false} RunsConcat(s: State, a: seq<Step>, b: seq<Step>)
    requires Runs(s, a) && Runs(After(s, a), b)
    ensures Runs(s, a + b) && After(s, a + b) == After(After(s, a), b)
    decreases |a|
  {
    hide Do, Enabled;
    if a == [] {
      assert a + b == b;
    } else {
      assert (a + b)[1..] == a[1..] + b;
      RunsConcat(Do(s, a[0]), a[1..], b);
    }
  }

  lemma PhasesAreNatural(s: State)
    requires Inv(s)
    ensures Phases(s) >= 0
  {
  }

  // A step of stop() itself.
  lemma AdvanceIsNearer(s: State)
    requires Good(s) && Enabled(s, Advance)
    ensures Good(Do(s, Advance)) && Phases(Do(s, Advance)) < Phases(s)
  {
    Keeps(s, Advance);
    StopFrame(s);
    AdvancePhase(s);
    hide Do, Enabled, Inv, OccupantInv, Phases;
    StaysUnstranded(s, Do(s, Advance));
  }

  lemma AdvancePhase(s: State)
    requires Inv(s) && Enabled(s, Advance)
    ensures Phases(Do(s, Advance)) < Phases(s)
  {
    hide FlowInv, CountInv, RefundInv, AllFinished, AllAborting, AllForced, NoneForced;
    StopperInRange(s);
  }

  lemma StopperInRange(s: State)
    requires Inv(s)
    ensures var n, m := |s.sessions|, |s.home|;
            match s.stopper
            case Aborting(r) => r <= n
            case Signalling(a) => a <= m
            case PostingStop(a) => a < m
            case Joining(a) => a <= m
            case Scanning(round, r, _, _) => r <= n && (round == 1 || round == 2)
            case Forcing(r) => r <= n
            case _ => true
  {
  }

  lemma StaysUnstranded(s: State, t: State)
    requires Unstranded(s) && Shaped(t) && t.accepts == s.accepts && t.halted == s.halted && t.home == s.home
    ensures Unstranded(t)
  {
    forall a | 0 <= a < |t.accepts| ensures !Stranded(t, a) {
      assert !Stranded(s, a);
    }
  }

  // A wait of the scan that a session outlives runs to its deadline, and the scan goes on.
  lemma GiveUpIsNearer(s: State) returns (more: seq<Step>)
    requires Good(s) && s.stopper.Scanning? && s.stopper.r < |s.sessions|
    ensures Runs(s, more) && Good(After(s, more)) && Phases(After(s, more)) < Phases(s)
  {
    var wait := Pass(s.stopper.deadline - s.now);
    var t := Do(s, wait);
    var u := Do(t, GiveUp);
    Keeps(s, wait);
    Keeps(t, GiveUp);
    more := [wait, GiveUp];
    assert more[1..] == [GiveUp] && [GiveUp][1..] == [];
    assert Runs(u, []) && Runs(t, [GiveUp]);
    assert After(s, more) == u;
    assert Phases(u) < Phases(s);
    hide Do, Enabled, Inv, OccupantInv, Phases;
    InvIsShaped(u);
    StaysUnstranded(s, u);
  }

  // The wait for an accept loop ends when that loop has been driven to its end.
  lemma JoinIsNearer(s: State, a: nat) returns (more: seq<Step>)
    requires Good(s) && s.stopper == Joining(a) && a < |s.accepts| && (s.posted[a] || s.closed[a])
    ensures Runs(s, more) && Good(After(s, more)) && Phases(After(s, more)) < Phases(s)
  {
    hide Do, Enabled, Distance, Inv, OccupantInv;
    InvIsShaped(s);
    more := Drive(s, a);
    var t := After(s, more);
    InvIsShaped(t);
    DrivenIsUnstranded(s, t, a);
    assert |t.sessions| == |s.sessions| by { SameReactors(s, more); }
    assert Phases(t) == Phases(s);
    hide Phases, Stranded;
    JoinReady(t, a);
    AdvanceIsNearer(t);
    RunsOne(t, Advance);
    RunsConcat(s, more, [Advance]);
    more := more + [Advance];
  }

  lemma DrivenIsUnstranded(s: State, t: State, a: nat)
    requires Unstranded(s) && Shaped(t) && Apart(s, t, a) && a < |t.accepts| && t.accepts[a].Finished?
    ensures Unstranded(t)
  {
    forall b | 0 <= b < |t.accepts| ensures !Stranded(t, b) {
      assert !Stranded(s, b);
    }
  }

  lemma {:induction false} SameReactors(s: State, steps: seq<Step>)
    requires Runs(s, steps)
    ensures |After(s, steps).sessions| == |s.sessions|
    decreases |steps|
  {
    if steps != [] {
      SameReactor(s, steps[0]);
      hide Do, Enabled;
      SameReactors(Do(s, steps[0]), steps[1..]);
    }
  }

  lemma SameReactor(s: State, step: Step)
    requires Enabled(s, step)
    ensures |Do(s, step).sessions| == |s.sessions|
  {
  }

  lemma JoinReady(s: State, a: nat)
    requires Shaped(s) && s.stopper == Joining(a) && a < |s.accepts| && s.accepts[a].Finished?
    ensures Enabled(s, Advance)
  {
  }

  lemma RunsOne(s: State, step: Step)
    requires Enabled(s, step)
    ensures Runs(s, [step]) && After(s, [step]) == Do(s, step)
  {
    assert [step][1..] == [];
    assert Runs(Do(s, step), []);
  }

  // From a state in which nothing is stranded stop() always has a way on.
  lemma Onward(s: State) returns (more: seq<Step>)
    requires Good(s) && !s.stopper.Stopped?
    ensures Runs(s, more) && Good(After(s, more)) && Phases(After(s, more)) < Phases(s)
  {
    if s.stopper.Scanning? && s.stopper.r < |s.sessions| {
      more := GiveUpIsNearer(s);
    } else if s.stopper.Joining? && s.stopper.a < |s.home| {
      JoinPosted(s);
      more := JoinIsNearer(s, s.stopper.a);
    } else {
      more := [Advance];
      AdvanceReady(s);
      hide Do, Enabled, Inv, OccupantInv, Unstranded, Phases;
      AdvanceIsNearer(s);
      RunsOne(s, Advance);
    }
  }

  lemma JoinPosted(s: State)
    requires Inv(s) && s.stopper.Joining? && s.stopper.a < |s.home|
    ensures s.stopper.a < |s.accepts| && (s.posted[s.stopper.a] || s.closed[s.stopper.a])
  {
  }

  lemma AdvanceReady(s: State)
    requires Inv(s) && !s.stopper.Stopped?
    requires !(s.stopper.Scanning? && s.stopper.r < |s.sessions|) && !(s.stopper.Joining? && s.stopper.a < |s.home|)
    ensures Enabled(s, Advance)
  {
  }

  lemma {:induction false} ToTheEnd(s: State) returns (more: seq<Step>)
    requires Good(s)
    ensures Runs(s, more) && After(s, more).stopper.Stopped?
    decreases Phases(s)
  {
    hide Do, Enabled, Good, Phases;
    if s.stopper.Stopped? {
      more := [];
    } else {
      more := Onward(s);
      var t := After(s, more);
      assert Phases(t) >= 0 by { GoodIsNatural(t); }
      assert Phases(s) >= 0 by { GoodIsNatural(s); }
      var rest := ToTheEnd(t);
      RunsConcat(s, more, rest);
      more := more + rest;
    }
  }

  lemma GoodIsNatural(s: State)
    requires Good(s)
    ensures Phases(s) >= 0
  {
    PhasesAreNatural(s);
  }

  ghost predicate StopsBy(s: State, more: seq<Step>) {
    Runs(s, more) && After(s, more).stopper.Stopped?
  }

  // In every reachable state, whatever sessions, walks and accepts are under way: stop() can come to its
  // end if and only if no accept loop is suspended on a loop its host has stopped. No session, however
  // long it runs, and no error keeps it from that.
  lemma StopCanEndIff(s: State, steps: seq<Step>)
    requires Init(s) && Runs(s, steps)
    ensures (exists more :: StopsBy(After(s, steps), more)) <==> Unstranded(After(s, steps))
  {
    NoLoose(s.accepts);
    assert Inv(s) && OccupantInv(s);
    hide Do, Enabled, Init;
    RunKeepsOccupants(s, steps);
    var t := After(s, steps);
    hide Runs, After, OccupantInv, Stranded;
    if Unstranded(t) {
      var more := ToTheEnd(t);
      assert StopsBy(t, more);
    } else {
      InvIsShaped(t);
      var a: nat :| a < |t.accepts| && Stranded(t, a);
      forall more | Runs(t, more) ensures !StopsBy(t, more) {
        NeverStops(t, more, a);
      }
    }
  }

  lemma NeverStops(s: State, more: seq<Step>, a: nat)
    requires Inv(s) && Runs(s, more) && a < |s.accepts| && Stranded(s, a)
    ensures !After(s, more).stopper.Stopped?
  {
    hide Do, Enabled;
    StaysStranded(s, more, a);
    RunKeeps(s, more);
  }
}

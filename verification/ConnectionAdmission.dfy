/**
 One specification for both admission counters: at most `limit` leases are held at a time. They
 differ in when they may refuse: `slack` is how many refused attempts may still count as held.
 */
module BoundedLeases {
  datatype Event = Grant | Refuse | Release | Quiet

  predicate Allowed(held: int, event: Event, held': int, limit: int, slack: nat) {
    match event
    case Grant => held < limit && held' == held + 1
    case Refuse => held' == held && held + slack >= limit
    case Release => held > 0 && held' == held - 1
    case Quiet => held' == held
  }
}

/**
 connection_admission.h: compare-and-swap loops over four counters, for any number of threads. A
 step is one atomic operation; any compare_exchange_weak may fail spuriously.
 */
module ConnectionAdmission {
  import opened BoundedLeases

  const MAX: nat := 0xFFFF_FFFF_FFFF_FFFF

  datatype Pc =
    | Idle
    | Deciding(value: nat)             // try_enter: holds a value of active
    | Rejecting                        // increment(rejected): before its load
    | RejectCas(seen: nat)
    | Accepting(value: nat)            // entered at `value`; increment(accepted): before its load
    | AcceptCas(value: nat, seen: nat)
    | Raising(value: nat)              // before the load of high_water
    | RaiseCas(value: nat, high: nat)

  datatype State = State(
    maximum: nat,
    active: nat,
    highWater: nat,
    accepted: nat,
    rejected: nat,
    threads: seq<Pc>,
    leases: nat,                       // leases handed out and not yet reset, whoever holds them
    peak: nat,                         // the largest value active has had
    grants: nat,                       // successful compare-and-swaps on active
    refusals: nat)                     // loads of active that found it full

  datatype Step =
    | Load(t: nat)
    | Enter(t: nat, spurious: bool)
    | LoadRejected(t: nat)
    | IncrementRejected(t: nat, spurious: bool)
    | LoadAccepted(t: nat)
    | IncrementAccepted(t: nat, spurious: bool)
    | LoadHigh(t: nat)
    | RaiseHigh(t: nat, spurious: bool)
    | Reset                            // some lease is reset or destroyed

  predicate Enabled(s: State, step: Step) {
    if step.Reset? then s.leases > 0 && s.active > 0
    else
      step.t < |s.threads| &&
      var pc := s.threads[step.t];
      match step
      case Load(_) => pc.Idle?
      case Enter(_, _) => pc.Deciding?
      case LoadRejected(_) => pc.Rejecting?
      case IncrementRejected(_, _) => pc.RejectCas?
      case LoadAccepted(_) => pc.Accepting?
      case IncrementAccepted(_, _) => pc.AcceptCas?
      case LoadHigh(_) => pc.Raising?
      case RaiseHigh(_, _) => pc.RaiseCas?
  }

  function At(s: State, t: nat, pc: Pc): State
    requires t < |s.threads|
  {
    s.(threads := s.threads[t := pc])
  }

  // A load of active: the attempt is refused at the moment the loaded value is full.
  function Loaded(s: State, t: nat): State
    requires t < |s.threads|
  {
    if s.active >= s.maximum then At(s, t, Rejecting).(refusals := s.refusals + 1)
    else At(s, t, Deciding(s.active))
  }

  function Do(s: State, step: Step): State
    requires Enabled(s, step)
  {
    match step
    case Load(t) => Loaded(s, t)
    case Enter(t, spurious) =>
      var value := s.threads[t].value;
      if !spurious && s.active == value then
        At(s, t, Accepting(value)).(active := value + 1, grants := s.grants + 1,
          peak := if s.peak < value + 1 then value + 1 else s.peak)
      else Loaded(s, t)
    case LoadRejected(t) => At(s, t, RejectCas(s.rejected))
    case IncrementRejected(t, spurious) =>
      var seen := s.threads[t].seen;
      if seen == MAX then At(s, t, Idle)
      else if !spurious && s.rejected == seen then At(s, t, Idle).(rejected := seen + 1)
      else At(s, t, RejectCas(s.rejected))
    case LoadAccepted(t) => At(s, t, AcceptCas(s.threads[t].value, s.accepted))
    case IncrementAccepted(t, spurious) =>
      var AcceptCas(value, seen) := s.threads[t];
      if seen == MAX then At(s, t, Raising(value))
      else if !spurious && s.accepted == seen then At(s, t, Raising(value)).(accepted := seen + 1)
      else At(s, t, AcceptCas(value, s.accepted))
    case LoadHigh(t) => At(s, t, RaiseCas(s.threads[t].value, s.highWater))
    case RaiseHigh(t, spurious) =>
      var RaiseCas(value, high) := s.threads[t];
      if high >= value + 1 then At(s, t, Idle).(leases := s.leases + 1)
      else if !spurious && s.highWater == high then At(s, t, Idle).(highWater := value + 1, leases := s.leases + 1)
      else At(s, t, RaiseCas(value, s.highWater))
    case Reset => s.(leases := s.leases - 1, active := s.active - 1)
  }

  ghost predicate Init(s: State) {
    && s.maximum > 0 && s.active == s.highWater == s.accepted == s.rejected == 0
    && s.leases == s.peak == s.grants == s.refusals == 0
    && forall t :: 0 <= t < |s.threads| ==> s.threads[t] == Idle
  }

  ghost predicate Runs(s: State, steps: seq<Step>)
    decreases |steps|
  {
    steps == [] || (Enabled(s, steps[0]) && Runs(Do(s, steps[0]), steps[1..]))
  }

  ghost function After(s: State, steps: seq<Step>): State
    requires Runs(s, steps)
    decreases |steps|
  {
    if steps == [] then s else After(Do(s, steps[0]), steps[1..])
  }

  // ---------- The invariant ----------

  predicate Entered(pc: Pc) {
    pc.Accepting? || pc.AcceptCas? || pc.Raising? || pc.RaiseCas?
  }

  predicate InAccepted(pc: Pc) {
    pc.Accepting? || pc.AcceptCas?
  }

  predicate InRejected(pc: Pc) {
    pc.Rejecting? || pc.RejectCas?
  }

  // How many threads satisfy `p`.
  function Tally(threads: seq<Pc>, p: Pc -> bool): nat {
    if threads == [] then 0 else (if p(threads[0]) then 1 else 0) + Tally(threads[1..], p)
  }

  lemma {:induction false} TallyUpdate(threads: seq<Pc>, t: nat, to: Pc, p: Pc -> bool)
    requires t < |threads|
    ensures Tally(threads[t := to], p) == Tally(threads, p) - (if p(threads[t]) then 1 else 0) + (if p(to) then 1 else 0)
  {
    if t == 0 {
      assert threads[t := to][1..] == threads[1..];
    } else {
      assert threads[t := to][1..] == threads[1..][t - 1 := to];
      TallyUpdate(threads[1..], t - 1, to, p);
    }
  }

  lemma {:induction false} TallyNone(threads: seq<Pc>, p: Pc -> bool)
    requires forall t :: 0 <= t < |threads| ==> !p(threads[t])
    ensures Tally(threads, p) == 0
  {
    if threads != [] {
      TallyNone(threads[1..], p);
    }
  }

  function Capped(n: int): int {
    if n < MAX then n else MAX
  }

  // The counters against the threads still between their atomic operations.
  ghost predicate CountInv(s: State) {
    && s.active == s.leases + Tally(s.threads, Entered)
    && s.accepted == Capped(s.grants - Tally(s.threads, InAccepted))
    && s.rejected == Capped(s.refusals - Tally(s.threads, InRejected))
  }

  ghost predicate SeenInv(s: State) {
    && (forall t :: 0 <= t < |s.threads| && s.threads[t].RejectCas? ==> s.threads[t].seen <= s.rejected)
    && (forall t :: 0 <= t < |s.threads| && s.threads[t].AcceptCas? ==> s.threads[t].seen <= s.accepted)
    && s.rejected <= MAX && s.accepted <= MAX
  }

  ghost predicate Owes(s: State, t: nat) {
    t < |s.threads| && Entered(s.threads[t]) && s.threads[t].value + 1 == s.peak
  }

  // high_water trails the peak only while a thread that reached the peak has yet to raise it.
  ghost predicate PeakInv(s: State) {
    && s.active <= s.peak <= s.maximum && s.highWater <= s.peak
    && (forall t :: 0 <= t < |s.threads| && s.threads[t].Deciding? ==> s.threads[t].value < s.maximum)
    && (forall t :: 0 <= t < |s.threads| && Entered(s.threads[t]) ==> s.threads[t].value + 1 <= s.peak)
    && (forall t :: 0 <= t < |s.threads| && s.threads[t].RaiseCas? ==> s.threads[t].high <= s.highWater)
    && (s.highWater < s.peak ==> exists t :: Owes(s, t))
  }

  ghost predicate Inv(s: State) {
    CountInv(s) && SeenInv(s) && PeakInv(s)
  }

  lemma ActiveKeeps(s: State, step: Step)
    requires CountInv(s) && Enabled(s, step)
    ensures var t := Do(s, step); t.active == t.leases + Tally(t.threads, Entered)
  {
    if !step.Reset? {
      TallyUpdate(s.threads, step.t, Do(s, step).threads[step.t], Entered);
    }
  }

  lemma AcceptedKeeps(s: State, step: Step)
    requires CountInv(s) && SeenInv(s) && Enabled(s, step)
    ensures var t := Do(s, step); t.accepted == Capped(t.grants - Tally(t.threads, InAccepted))
  {
    if !step.Reset? {
      TallyUpdate(s.threads, step.t, Do(s, step).threads[step.t], InAccepted);
    }
  }

  lemma RejectedKeeps(s: State, step: Step)
    requires CountInv(s) && SeenInv(s) && Enabled(s, step)
    ensures var t := Do(s, step); t.rejected == Capped(t.refusals - Tally(t.threads, InRejected))
  {
    if !step.Reset? {
      TallyUpdate(s.threads, step.t, Do(s, step).threads[step.t], InRejected);
    }
  }

  lemma SeenKeeps(s: State, step: Step)
    requires SeenInv(s) && Enabled(s, step)
    ensures SeenInv(Do(s, step))
  {
  }

  // The steps on active.
  lemma PeakKeepsEnter(s: State, step: Step)
    requires PeakInv(s) && Enabled(s, step) && (step.Load? || step.Enter?)
    ensures PeakInv(Do(s, step))
  {
    var t := Do(s, step);
    if t.peak != s.peak {
      assert Owes(t, step.t);
    } else if t.highWater < t.peak {
      var u :| Owes(s, u);
      assert Owes(t, u);
    }
  }

  // The steps on high_water.
  lemma PeakKeepsRaise(s: State, step: Step)
    requires PeakInv(s) && Enabled(s, step) && (step.LoadHigh? || step.RaiseHigh?)
    ensures PeakInv(Do(s, step))
  {
    var t := Do(s, step);
    if t.highWater < t.peak {
      var u :| Owes(s, u);
      assert Owes(t, u);
    }
  }

  lemma PeakKeepsRest(s: State, step: Step)
    requires PeakInv(s) && Enabled(s, step)
    requires !step.Load? && !step.Enter? && !step.LoadHigh? && !step.RaiseHigh?
    ensures PeakInv(Do(s, step))
  {
    var t := Do(s, step);
    if t.highWater < t.peak {
      var u :| Owes(s, u);
      assert Owes(t, u);
    }
  }

  lemma StepKeeps(s: State, step: Step)
    requires Inv(s) && Enabled(s, step)
    ensures Inv(Do(s, step))
  {
    hide PeakInv, SeenInv, Do;
    ActiveKeeps(s, step);
    AcceptedKeeps(s, step);
    RejectedKeeps(s, step);
    SeenKeeps(s, step);
    if step.Load? || step.Enter? {
      PeakKeepsEnter(s, step);
    } else if step.LoadHigh? || step.RaiseHigh? {
      PeakKeepsRaise(s, step);
    } else {
      PeakKeepsRest(s, step);
    }
  }

  lemma {:induction false} RunKeeps(s: State, steps: seq<Step>)
    requires Inv(s) && Runs(s, steps)
    ensures Inv(After(s, steps))
    decreases |steps|
  {
    if steps != [] {
      StepKeeps(s, steps[0]);
      RunKeeps(Do(s, steps[0]), steps[1..]);
    }
  }

  lemma Reachable(s: State, steps: seq<Step>)
    requires Init(s) && Runs(s, steps)
    ensures Inv(After(s, steps))
  {
    TallyNone(s.threads, Entered);
    TallyNone(s.threads, InAccepted);
    TallyNone(s.threads, InRejected);
    RunKeeps(s, steps);
  }

  // ---------- Main results ----------

  // The largest value active takes along a run.
  ghost function Peak(s: State, steps: seq<Step>): nat
    requires Runs(s, steps)
    decreases |steps|
  {
    if steps == [] then s.active
    else
      var later := Peak(Do(s, steps[0]), steps[1..]);
      if s.active > later then s.active else later
  }

  ghost function Grants(s: State, steps: seq<Step>): nat
    requires Runs(s, steps)
    decreases |steps|
  {
    if steps == [] then 0
    else (if EventOf(s, steps[0]).Grant? then 1 else 0) + Grants(Do(s, steps[0]), steps[1..])
  }

  ghost function Refusals(s: State, steps: seq<Step>): nat
    requires Runs(s, steps)
    decreases |steps|
  {
    if steps == [] then 0
    else (if EventOf(s, steps[0]).Refuse? then 1 else 0) + Refusals(Do(s, steps[0]), steps[1..])
  }

  // What a step does to the leases of the specification.
  function EventOf(s: State, step: Step): Event
    requires Enabled(s, step)
  {
    var t := Do(s, step);
    if step.Reset? then Release
    else if t.active > s.active then Grant
    else if (step.Load? || step.Enter?) && t.threads[step.t].Rejecting? then Refuse
    else Quiet
  }

  lemma {:induction false} GhostsAreTrue(s: State, steps: seq<Step>)
    requires Runs(s, steps) && s.active <= s.peak
    ensures var t := After(s, steps);
            && t.peak == (if s.peak > Peak(s, steps) then s.peak else Peak(s, steps))
            && t.grants == s.grants + Grants(s, steps)
            && t.refusals == s.refusals + Refusals(s, steps)
    decreases |steps|
  {
    if steps != [] {
      GhostsAreTrue(Do(s, steps[0]), steps[1..]);
    }
  }

  // For any number of threads and any interleaving: active counts the leases held or about to be
  // handed out and never exceeds the bound, and high_water never exceeds the true peak.
  lemma NeverOverTheBound(s: State, steps: seq<Step>)
    requires Init(s) && Runs(s, steps)
    ensures var t := After(s, steps);
            && t.active == t.leases + Tally(t.threads, Entered)
            && t.highWater <= Peak(s, steps) <= t.maximum
            && t.active <= t.maximum
  {
    Reachable(s, steps);
    GhostsAreTrue(s, steps);
  }

  // Whenever no try_enter is under way the statistics are exact: high_water is the peak, and the two
  // counters are the numbers of grants and refusals, capped at 2^64 - 1.
  lemma ExactWhenQuiet(s: State, steps: seq<Step>)
    requires Init(s) && Runs(s, steps)
    requires forall k :: 0 <= k < |After(s, steps).threads| ==> After(s, steps).threads[k].Idle?
    ensures var t := After(s, steps);
            && t.active == t.leases
            && t.highWater == Peak(s, steps)
            && t.accepted == Capped(Grants(s, steps))
            && t.rejected == Capped(Refusals(s, steps))
  {
    Reachable(s, steps);
    GhostsAreTrue(s, steps);
    var t := After(s, steps);
    TallyNone(t.threads, Entered);
    TallyNone(t.threads, InAccepted);
    TallyNone(t.threads, InRejected);
  }

  // Every step is a step of the bounded leases with no slack: an attempt is refused only at a moment
  // when exactly `maximum` leases are held.
  lemma RefinesBoundedLeases(s: State, steps: seq<Step>, next: Step)
    requires Init(s) && Runs(s, steps) && Enabled(After(s, steps), next)
    ensures var t := After(s, steps);
            Allowed(t.active, EventOf(t, next), Do(t, next).active, t.maximum, 0)
  {
    Reachable(s, steps);
  }

  // ---------- One attempt, undisturbed ----------

  // A compare-and-swap on the current value that does not fail spuriously is granted.
  lemma CurrentValueIsGranted(s: State, t: nat)
    requires Enabled(s, Enter(t, false)) && s.threads[t].value == s.active
    ensures EventOf(s, Enter(t, false)) == Grant && Do(s, Enter(t, false)).active == s.active + 1
  {
  }

  lemma OneMore(s: State, step: Step, t: State, rest: seq<Step>) returns (steps: seq<Step>)
    requires Enabled(s, step) && Do(s, step) == t && Runs(t, rest)
    ensures steps == [step] + rest && Runs(s, steps) && After(s, steps) == After(t, rest)
  {
    steps := [step] + rest;
    assert steps[1..] == rest;
  }

  // From any state, with whatever other threads are in the middle of, a thread left alone below the bound
  // gets its lease: one more active, one more accepted, and high_water at least what active is now.
  lemma AloneBelowTheBoundEnters(s: State, t: nat) returns (steps: seq<Step>)
    requires t < |s.threads| && s.threads[t].Idle? && s.active < s.maximum
    ensures Runs(s, steps)
    ensures var u := After(s, steps);
            && u.threads == s.threads && u.leases == s.leases + 1 && u.active == s.active + 1
            && u.accepted == (if s.accepted == MAX then MAX else s.accepted + 1) && u.rejected == s.rejected
            && u.highWater == (if s.highWater < s.active + 1 then s.active + 1 else s.highWater)
  {
    var v := s.active;
    var entered := At(s, t, Accepting(v)).(active := v + 1, grants := s.grants + 1,
      peak := if s.peak < v + 1 then v + 1 else s.peak);
    steps := AloneCounts(entered, t, v);
    assert entered.threads[t := Idle] == s.threads;
    hide Runs, After;
    steps := OneMore(At(s, t, Deciding(v)), Enter(t, false), entered, steps);
    steps := OneMore(s, Load(t), At(s, t, Deciding(v)), steps);
  }

  lemma AloneCounts(s: State, t: nat, v: nat) returns (steps: seq<Step>)
    requires t < |s.threads| && s.threads[t] == Accepting(v)
    ensures Runs(s, steps)
    ensures After(s, steps) == At(s, t, Idle).(leases := s.leases + 1,
              accepted := if s.accepted == MAX then MAX else s.accepted + 1,
              highWater := if s.highWater < v + 1 then v + 1 else s.highWater)
  {
    var counting := At(s, t, AcceptCas(v, s.accepted));
    var counted := At(s, t, Raising(v)).(accepted := if s.accepted == MAX then MAX else s.accepted + 1);
    steps := AloneRaises(counted, t, v);
    assert counting.threads[t := Raising(v)] == counted.threads;
    assert counted.threads[t := Idle] == s.threads[t := Idle];
    hide Runs, After;
    steps := OneMore(counting, IncrementAccepted(t, false), counted, steps);
    steps := OneMore(s, LoadAccepted(t), counting, steps);
  }

  lemma AloneRaises(s: State, t: nat, v: nat) returns (steps: seq<Step>)
    requires t < |s.threads| && s.threads[t] == Raising(v)
    ensures Runs(s, steps)
    ensures After(s, steps) == At(s, t, Idle).(leases := s.leases + 1,
              highWater := if s.highWater < v + 1 then v + 1 else s.highWater)
  {
    var raising := At(s, t, RaiseCas(v, s.highWater));
    var raised := At(s, t, Idle).(leases := s.leases + 1,
      highWater := if s.highWater < v + 1 then v + 1 else s.highWater);
    assert raising.threads[t := Idle] == raised.threads;
    assert Runs(raised, []) && After(raised, []) == raised;
    hide Runs, After;
    steps := OneMore(raising, RaiseHigh(t, false), raised, []);
    steps := OneMore(s, LoadHigh(t), raising, steps);
  }

  // At the bound it is refused: one more rejected, and nothing else.
  lemma AloneAtTheBoundIsRefused(s: State, t: nat) returns (steps: seq<Step>)
    requires t < |s.threads| && s.threads[t].Idle? && s.active >= s.maximum
    ensures Runs(s, steps)
    ensures After(s, steps) ==
            s.(rejected := if s.rejected == MAX then MAX else s.rejected + 1, refusals := s.refusals + 1)
  {
    var refused := At(s, t, Rejecting).(refusals := s.refusals + 1);
    var counted := s.(rejected := if s.rejected == MAX then MAX else s.rejected + 1, refusals := s.refusals + 1);
    assert s.threads[t := Idle] == s.threads;
    assert Runs(counted, []) && After(counted, []) == counted;
    hide Runs, After;
    steps := OneMore(At(refused, t, RejectCas(s.rejected)), IncrementRejected(t, false), counted, []);
    steps := OneMore(refused, LoadRejected(t), At(refused, t, RejectCas(s.rejected)), steps);
    steps := OneMore(s, Load(t), refused, steps);
  }
}

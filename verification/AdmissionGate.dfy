/**
 AdmissionGate of reactor.h: try_enter adds first and undoes the addition when it finds the gate
 full. Any number of threads; a step is one atomic operation.
 */
module AdmissionGate {
  import opened BoundedLeases

  datatype Pc =
    | Outside
    | Undoing          // refused: its addition is still in inflight
    | Counting         // refused: rejected not yet incremented

  datatype State = State(limit: int, inflight: int, rejected: nat, held: nat, threads: seq<Pc>)

  datatype Step =
    | Add(t: nat)      // inflight.fetch_add, and the test on what it returned
    | Undo(t: nat)
    | CountRejected(t: nat)
    | Leave            // some admission is left, by leave() or by a lease

  predicate Enabled(s: State, step: Step) {
    match step
    case Leave => s.held > 0
    case Add(t) => t < |s.threads| && s.threads[t].Outside?
    case Undo(t) => t < |s.threads| && s.threads[t].Undoing?
    case CountRejected(t) => t < |s.threads| && s.threads[t].Counting?
  }

  // What try_enter decides on the value its addition found.
  predicate Refused(inflight: int, limit: int) {
    inflight >= limit && limit > 0
  }

  function Do(s: State, step: Step): State
    requires Enabled(s, step)
  {
    match step
    case Add(t) =>
      if Refused(s.inflight, s.limit) then s.(inflight := s.inflight + 1, threads := s.threads[t := Undoing])
      else s.(inflight := s.inflight + 1, held := s.held + 1)
    case Undo(t) => s.(inflight := s.inflight - 1, threads := s.threads[t := Counting])
    case CountRejected(t) => s.(rejected := s.rejected + 1, threads := s.threads[t := Outside])
    case Leave => s.(inflight := s.inflight - 1, held := s.held - 1)
  }

  ghost predicate Init(s: State) {
    && s.inflight == 0 && s.rejected == 0 && s.held == 0
    && forall t :: 0 <= t < |s.threads| ==> s.threads[t] == Outside
  }

  ghost predicate Runs(s: State, steps: seq<Step>)
    decreases |steps|
  {
    steps == [] || (Enabled(s, steps[0]) && Runs(Do(s, steps[0]), steps[1..]))
  }

  ghost function After(s: State, steps: seq<Step>): State
    requires Runs(s, steps)
    decreases |steps|
  {
    if steps == [] then s else After(Do(s, steps[0]), steps[1..])
  }

  // Refused attempts whose addition has not been undone.
  function Pending(threads: seq<Pc>): nat {
    if threads == [] then 0 else (if threads[0].Undoing? then 1 else 0) + Pending(threads[1..])
  }

  lemma {:induction false} PendingUpdate(threads: seq<Pc>, t: nat, to: Pc)
    requires t < |threads|
    ensures Pending(threads[t := to]) ==
            Pending(threads) - (if threads[t].Undoing? then 1 else 0) + (if to.Undoing? then 1 else 0)
  {
    if t == 0 {
      assert threads[t := to][1..] == threads[1..];
    } else {
      assert threads[t := to][1..] == threads[1..][t - 1 := to];
      PendingUpdate(threads[1..], t - 1, to);
    }
  }

  lemma {:induction false} NonePending(threads: seq<Pc>)
    requires forall t :: 0 <= t < |threads| ==> !threads[t].Undoing?
    ensures Pending(threads) == 0
  {
    if threads != [] {
      NonePending(threads[1..]);
    }
  }

  ghost predicate Inv(s: State) {
    s.inflight == s.held + Pending(s.threads) && (s.limit > 0 ==> s.held <= s.limit)
  }

  lemma StepKeeps(s: State, step: Step)
    requires Inv(s) && Enabled(s, step)
    ensures Inv(Do(s, step)) && Do(s, step).limit == s.limit
  {
    if !step.Leave? {
      PendingUpdate(s.threads, step.t, Do(s, step).threads[step.t]);
    }
  }

  lemma {:induction false} RunKeeps(s: State, steps: seq<Step>)
    requires Inv(s) && Runs(s, steps)
    ensures Inv(After(s, steps)) && After(s, steps).limit == s.limit
    decreases |steps|
  {
    if steps != [] {
      StepKeeps(s, steps[0]);
      RunKeeps(Do(s, steps[0]), steps[1..]);
    }
  }

  // ---------- Main results ----------

  // In every run, held admissions never exceed a positive limit although inflight may: inflight is
  // what is held plus the refusals still to be undone, and what is held when none is.
  lemma HeldWithinTheLimit(s: State, steps: seq<Step>)
    requires Init(s) && Runs(s, steps)
    ensures var t := After(s, steps);
            && (s.limit > 0 ==> t.held <= s.limit)
            && t.inflight == t.held + Pending(t.threads)
            && ((forall k :: 0 <= k < |t.threads| ==> !t.threads[k].Undoing?) ==> t.inflight == t.held)
  {
    NonePending(s.threads);
    RunKeeps(s, steps);
    var t := After(s, steps);
    if forall k :: 0 <= k < |t.threads| ==> !t.threads[k].Undoing? {
      NonePending(t.threads);
    }
  }

  function EventOf(s: State, step: Step): Event
    requires Enabled(s, step)
  {
    match step
    case Leave => Release
    case Add(_) => if Do(s, step).held > s.held then Grant else Refuse
    case _ => Quiet
  }

  // Every step is a step of the bounded leases, with the refusals under way as slack; and with a
  // positive limit that slack is exact: an attempt is refused if and only if what is held and the
  // refusals under way reach the limit together.
  lemma RefinesBoundedLeases(s: State, steps: seq<Step>, next: Step)
    requires Init(s) && Runs(s, steps) && Enabled(After(s, steps), next)
    ensures var t := After(s, steps);
            && (s.limit > 0 ==> Allowed(t.held, EventOf(t, next), Do(t, next).held, s.limit, Pending(t.threads)))
            && (next.Add? ==> (EventOf(t, next).Refuse? <==> s.limit > 0 && t.held + Pending(t.threads) >= s.limit))
  {
    NonePending(s.threads);
    RunKeeps(s, steps);
  }

  function Uncounted(threads: seq<Pc>): nat {
    if threads == [] then 0 else (if threads[0].Outside? then 0 else 1) + Uncounted(threads[1..])
  }

  lemma {:induction false} UncountedUpdate(threads: seq<Pc>, t: nat, to: Pc)
    requires t < |threads|
    ensures Uncounted(threads[t := to]) ==
            Uncounted(threads) - (if threads[t].Outside? then 0 else 1) + (if to.Outside? then 0 else 1)
  {
    if t == 0 {
      assert threads[t := to][1..] == threads[1..];
    } else {
      assert threads[t := to][1..] == threads[1..][t - 1 := to];
      UncountedUpdate(threads[1..], t - 1, to);
    }
  }

  ghost function Refusals(s: State, steps: seq<Step>): nat
    requires Runs(s, steps)
    decreases |steps|
  {
    if steps == [] then 0
    else (if EventOf(s, steps[0]).Refuse? then 1 else 0) + Refusals(Do(s, steps[0]), steps[1..])
  }

  // `rejected` counts the refusals of the run, but for the threads that have yet to count theirs.
  lemma {:induction false} RejectedCounts(s: State, steps: seq<Step>)
    requires Runs(s, steps)
    ensures After(s, steps).rejected + Uncounted(After(s, steps).threads) ==
            s.rejected + Uncounted(s.threads) + Refusals(s, steps)
    decreases |steps|
  {
    if steps != [] {
      if !steps[0].Leave? {
        UncountedUpdate(s.threads, steps[0].t, Do(s, steps[0]).threads[steps[0].t]);
        assert s.threads[steps[0].t := s.threads[steps[0].t]] == s.threads;
      }
      hide Uncounted;
      RejectedCounts(Do(s, steps[0]), steps[1..]);
    }
  }

  // Without the slack it does not refine them: a gate of limit 1 refuses an attempt that finds it empty.
  lemma RefusesWhileEmpty(s: State)
    requires Init(s) && s.limit == 1 && |s.threads| == 3
    ensures var steps := [Add(0), Add(1), Leave];
            && Runs(s, steps) && After(s, steps).held == 0 && Enabled(After(s, steps), Add(2))
            && EventOf(After(s, steps), Add(2)) == Refuse
            && !Allowed(0, Refuse, 0, s.limit, 0)
  {
    var one := Do(s, Add(0));
    var two := Do(one, Add(1));
    var three := Do(two, Leave);
    assert Runs(three, []);
    assert Runs(two, [Leave]);
    assert [Add(1), Leave][1..] == [Leave];
    assert Runs(one, [Add(1), Leave]);
    assert [Add(0), Add(1), Leave][1..] == [Add(1), Leave];
    assert After(one, [Add(1), Leave]) == After(two, [Leave]) == three;
  }
}

/**
 The move-only leases of both headers: cells that hold an admission or nothing. Moving empties the
 source; reset, destruction and a move onto a full cell leave the admission the cell held.
 */
module Leases {
  datatype Cell = Empty | Full(admission: nat)

  // `released` lists the admissions left, in order.
  datatype State = State(cells: seq<Cell>, released: seq<nat>)

  datatype Op =
    | Reset(at: nat)                      // also the destructor
    | Move(to: nat, from: nat)            // to = std::move(from); a move construction has `to` empty
    | Admit(at: nat, admission: nat)      // a fresh lease is moved in

  // The two self-moves differ: AdmissionGate::Lease resets first, ConnectionAdmission::Lease does nothing.
  datatype Flavour = GateLease | ConnectionLease

  predicate Enabled(s: State, op: Op) {
    match op
    case Reset(at) => at < |s.cells|
    case Move(to, from) => to < |s.cells| && from < |s.cells|
    case Admit(at, admission) => at < |s.cells|
  }

  function Cleared(s: State, at: nat): State
    requires at < |s.cells|
  {
    match s.cells[at]
    case Empty => s
    case Full(a) => State(s.cells[at := Empty], s.released + [a])
  }

  function Do(s: State, op: Op, flavour: Flavour): State
    requires Enabled(s, op)
  {
    match op
    case Reset(at) => Cleared(s, at)
    case Move(to, from) =>
      if to == from && flavour.ConnectionLease? then s
      else
        var t := Cleared(s, to);
        t.(cells := t.cells[to := t.cells[from]][from := Empty])
    case Admit(at, admission) =>
      var t := Cleared(s, at);
      t.(cells := t.cells[at := Full(admission)])
  }

  ghost predicate Runs(s: State, ops: seq<Op>, flavour: Flavour)
    decreases |ops|
  {
    ops == [] || (Enabled(s, ops[0]) && Runs(Do(s, ops[0], flavour), ops[1..], flavour))
  }

  ghost function After(s: State, ops: seq<Op>, flavour: Flavour): State
    requires Runs(s, ops, flavour)
    decreases |ops|
  {
    if ops == [] then s else After(Do(s, ops[0], flavour), ops[1..], flavour)
  }

  // How many cells hold admission `a`, how often it was released, how often it was admitted.
  function Holders(cells: seq<Cell>, a: nat): nat {
    if cells == [] then 0 else (if cells[0] == Full(a) then 1 else 0) + Holders(cells[1..], a)
  }

  function Releases(released: seq<nat>, a: nat): nat {
    multiset(released)[a]
  }

  function Admissions(ops: seq<Op>, a: nat): nat {
    if ops == [] then 0 else (if ops[0].Admit? && ops[0].admission == a then 1 else 0) + Admissions(ops[1..], a)
  }

  lemma {:induction false} HoldersUpdate(cells: seq<Cell>, at: nat, to: Cell, a: nat)
    requires at < |cells|
    ensures Holders(cells[at := to], a) ==
            Holders(cells, a) - (if cells[at] == Full(a) then 1 else 0) + (if to == Full(a) then 1 else 0)
  {
    if at == 0 {
      assert cells[at := to][1..] == cells[1..];
    } else {
      assert cells[at := to][1..] == cells[1..][at - 1 := to];
      HoldersUpdate(cells[1..], at - 1, to, a);
    }
  }

  lemma ClearedConserves(s: State, at: nat, a: nat)
    requires at < |s.cells|
    ensures var t := Cleared(s, at);
            && Holders(t.cells, a) + Releases(t.released, a) == Holders(s.cells, a) + Releases(s.released, a)
            && |t.cells| == |s.cells| && t.cells[at].Empty?
  {
    HoldersUpdate(s.cells, at, Empty, a);
  }

  lemma StepConserves(s: State, op: Op, flavour: Flavour, a: nat)
    requires Enabled(s, op)
    ensures var t := Do(s, op, flavour);
            Holders(t.cells, a) + Releases(t.released, a) ==
            Holders(s.cells, a) + Releases(s.released, a) + (if op.Admit? && op.admission == a then 1 else 0)
  {
    match op
    case Reset(at) => ClearedConserves(s, at, a);
    case Move(to, from) =>
      if !(to == from && flavour.ConnectionLease?) {
        ClearedConserves(s, to, a);
        var t := Cleared(s, to);
        HoldersUpdate(t.cells, to, t.cells[from], a);
        HoldersUpdate(t.cells[to := t.cells[from]], from, Empty, a);
      }
    case Admit(at, admission) =>
      ClearedConserves(s, at, a);
      HoldersUpdate(Cleared(s, at).cells, at, Full(admission), a);
  }

  // Whatever is moved, self-moved, reset and destroyed in whatever order, no admission is lost and
  // none is left twice: it was released as often as it was admitted and is no longer held.
  lemma {:induction false} EachReleasedOnce(s: State, ops: seq<Op>, flavour: Flavour, a: nat)
    requires Runs(s, ops, flavour)
    ensures var t := After(s, ops, flavour);
            Holders(t.cells, a) + Releases(t.released, a) ==
            Holders(s.cells, a) + Releases(s.released, a) + Admissions(ops, a)
    decreases |ops|
  {
    if ops != [] {
      StepConserves(s, ops[0], flavour, a);
      EachReleasedOnce(Do(s, ops[0], flavour), ops[1..], flavour, a);
    }
  }

  // What each operation does to its cells: a reset empties the cell and gives back its admission, a move
  // hands over what the source held and empties it, and the target gives back what it held before.
  lemma CellsAfter(s: State, op: Op, flavour: Flavour, i: nat)
    requires Enabled(s, op) && i < |s.cells|
    ensures var t := Do(s, op, flavour);
            && |t.cells| == |s.cells|
            && (op == Reset(i) ==> t.cells[i] == Empty)
            && (op.Reset? && op.at != i ==> t.cells[i] == s.cells[i])
            && (op.Move? && op.to == i && op.from != i ==> t.cells[i] == s.cells[op.from])
            && (op.Move? && op.from == i && op.to != i ==> t.cells[i] == Empty)
            && (op == Move(i, i) ==> t.cells[i] == if flavour.GateLease? then Empty else s.cells[i])
            && (op.Move? && op.from != i && op.to != i ==> t.cells[i] == s.cells[i])
            && (op.Admit? ==> t.cells[i] == if op.at == i then Full(op.admission) else s.cells[i])
    ensures var left := match op
                        case Reset(at) => s.cells[at]
                        case Move(to, from) => if to == from && flavour.ConnectionLease? then Empty else s.cells[to]
                        case Admit(at, _) => s.cells[at];
            Do(s, op, flavour).released == s.released + (if left.Full? then [left.admission] else [])
  {
  }

  // ---------- AdmissionGate::Lease as an object ----------

  class Gate {
    const limit: int
    var inflight: int
    var rejected: nat

    constructor (bound: int)
      ensures limit == bound && inflight == 0 && rejected == 0
    {
      limit, inflight, rejected := bound, 0, 0;
    }

    // try_enter with no other thread in between: a refusal leaves only its trace in `rejected`.
    method TryEnter() returns (entered: bool)
      modifies this
      ensures entered <==> limit <= 0 || old(inflight) < limit
      ensures inflight == old(inflight) + (if entered then 1 else 0)
      ensures rejected == old(rejected) + (if entered then 0 else 1)
    {
      var found := inflight;
      inflight := inflight + 1;
      if found >= limit && limit > 0 {
        inflight := inflight - 1;
        rejected := rejected + 1;
        return false;
      }
      return true;
    }

    // enter(): a lease of this gate, or an empty one.
    method Enter() returns (lease: Lease)
      modifies this
      ensures fresh(lease) && lease.gate == (if limit <= 0 || old(inflight) < limit then this else null)
      ensures inflight == old(inflight) + (if lease.gate == this then 1 else 0)
      ensures rejected == old(rejected) + (if lease.gate == this then 0 else 1)
    {
      var entered := TryEnter();
      lease := new Lease(if entered then this else null);
    }

    method Leave()
      modifies `inflight
      ensures inflight == old(inflight) - 1
    {
      inflight := inflight - 1;
    }
  }

  class Lease {
    var gate: Gate?

    constructor (g: Gate?)
      ensures gate == g
    {
      gate := g;
    }

    method Clear()
      modifies this, gate
      ensures gate == null
      ensures old(gate) != null ==> old(gate).inflight == old(gate.inflight) - 1 && old(gate).rejected == old(gate.rejected)
    {
      if gate != null {
        gate.Leave();
        gate := null;
      }
    }

    // operator=(Lease&&), with `other` possibly this lease or one of the same gate.
    method MoveFrom(other: Lease)
      modifies this, other, gate
      ensures gate == if other == this then null else old(other.gate)
      ensures other != this ==> other.gate == null
      ensures old(gate) != null ==> old(gate).inflight == old(gate.inflight) - 1 && old(gate).rejected == old(gate.rejected)
    {
      Clear();
      var moved := other.gate;
      other.gate := null;
      gate := moved;
    }
  }
}

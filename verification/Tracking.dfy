/**
 Reactor::track, untrack, abort_all and force_all on one loop. Callbacks (abort and force) are
 arbitrary user code: between any two of their operations the machine may take any user step, so a
 run is any program the callbacks could be. The stack holds what the loop thread has yet to return
 to, innermost on top.
 */
module Tracking {
  import opened AbortWalk
  import opened Basics

  type Node = nat

  datatype Kind = Aborting | Forcing

  datatype Frame =
    | ReadsWalked(node: Node)                      // track(): the node is in the list, walked_ is read next
    | ReadsForced(node: Node)                      // track(): forced_ is read next
    | Walk(kind: Kind, saved: Option<Node>)        // each(): the loop, with the cursor it will restore
    | Callback                                     // user code inside abort() or force()

  datatype Stack = Bottom | On(top: Frame, rest: Stack)

  // The thread in TcpServer::stop(), as far as this reactor goes.
  datatype Stopper =
    | Outside
    | Waiting                    // won the exchange in abort_all(), waits for its walk
    | PastAbort(won: bool)       // abort_all() has returned

  datatype State = State(
    nodes: seq<Node>,
    cursor: Option<Node>,
    aborting: bool,
    walked: bool,
    forced: bool,
    stack: Stack,
    aborts: multiset<Node>,      // per node: abort() calls since it was last tracked
    forces: multiset<Node>,      // per node: force() calls since it was last tracked
    stopper: Stopper,
    marks: Marks)

  // What has gone wrong so far.
  datatype Marks = Marks(
    early: bool,                 // a force walk began before the abort walk had ended
    abortSpoiled: bool,          // the abort walk lost its place while a walk inside it had its cursor
    forceSpoiled: bool,          // the same for a force walk
    torn: bool,                  // an abort() threw out of the abort walk
    missed: set<Node>,           // the nodes it had yet to reach then, while they stay tracked
    unforced: set<Node>)         // nodes a force() or abort() that threw kept from their force()

  datatype Step =
    | Track(n: Node)
    | Untrack(n: Node)
    | Exchange                   // abort_all() on any thread: aborting_ is exchanged
    | BeginAbort                 // the walk of the call that won the exchange begins on the loop
    | ForceAll                   // the walk of some force_all() begins on the loop
    | StopAborts                 // stop(): the exchange of its abort_all()
    | StopReturns                // stop(): its abort_all() returns after its walk
    | StopForces                 // stop(): the walk of its force_all() begins
    | Return                     // the callback on top returns
    | Throw                      // it throws: what called it is left for the user code below
    | Continue                   // the runtime's own code on top goes on

  function Count(m: multiset<Node>, n: Node): nat {
    m[n]
  }

  function Bump(m: multiset<Node>, n: Node): multiset<Node> {
    m[n := Count(m, n) + 1]
  }

  // The innermost walk under way is of this kind: it has the cursor.
  predicate Innermost(stack: Stack, kind: Kind) {
    match stack
    case Bottom => false
    case On(Walk(k, _), _) => k == kind
    case On(_, rest) => Innermost(rest, kind)
  }

  // The cursors saved for walks of this kind by the walks inside them.
  function SavedFor(stack: Stack, kind: Kind): set<Node> {
    match stack
    case Bottom => {}
    case On(Walk(_, Some(n)), rest) => (if Innermost(rest, kind) then {n} else {}) + SavedFor(rest, kind)
    case On(_, rest) => SavedFor(rest, kind)
  }

  predicate Walking(stack: Stack, kind: Kind) {
    stack.On? && ((stack.top.Walk? && stack.top.kind == kind) || Walking(stack.rest, kind))
  }

  predicate InUserCode(s: State) {
    s.stack.Bottom? || s.stack.top.Callback?
  }

  predicate Enabled(s: State, step: Step) {
    match step
    case Track(n) => InUserCode(s) && n !in s.nodes
    case Untrack(_) => InUserCode(s)
    case Exchange => true
    case BeginAbort => InUserCode(s) && s.aborting && !s.walked
    case ForceAll => InUserCode(s)
    case StopAborts => s.stopper.Outside?
    case StopReturns => s.stopper.Waiting? && s.walked && !Walking(s.stack, Aborting) && !s.marks.torn
    case StopForces => InUserCode(s) && s.stopper.PastAbort?
    case Return => s.stack.On? && s.stack.top.Callback?
    case Throw => s.stack.On? && s.stack.top.Callback?
    case Continue => s.stack.On? && !s.stack.top.Callback?
  }

  // The node on which the runtime calls force() next: that of a track() that reads forced_, or of a
  // force walk.
  function ForcedNext(s: State): Option<Node>
    requires Enabled(s, Continue)
  {
    match s.stack.top
    case ReadsForced(n) => if s.forced then Some(n) else None
    case Walk(Forcing, _) => s.cursor
    case _ => None
  }

  // The runtime's code on top of the stack takes its next step.
  function Go(s: State): State
    requires Enabled(s, Continue)
  {
    match s.stack.top
    case ReadsWalked(n) =>
      if s.walked then s.(aborts := Bump(s.aborts, n), stack := On(Callback, On(ReadsForced(n), s.stack.rest)))
      else s.(stack := On(ReadsForced(n), s.stack.rest))
    case ReadsForced(n) =>
      if s.forced then s.(forces := Bump(s.forces, n), stack := On(Callback, s.stack.rest))
      else s.(stack := s.stack.rest)
    case Walk(kind, saved) =>
      if s.cursor.None? then s.(cursor := saved, stack := s.stack.rest)
      else
        var n := s.cursor.value;
        s.(cursor := NextOf(s.nodes, n), stack := On(Callback, s.stack),
           aborts := if kind.Aborting? then Bump(s.aborts, n) else s.aborts,
           forces := if kind.Forcing? then Bump(s.forces, n) else s.forces)
  }

  function BeginForce(s: State): State {
    s.(forced := true, cursor := Head(s.nodes), stack := On(Walk(Forcing, s.cursor), s.stack),
       marks := s.marks.(early := s.marks.early || !s.walked || Walking(s.stack, Aborting)))
  }

  function Pending(s: State): set<Node> {
    set m | m in From(s.nodes, s.cursor)
  }

  // An exception leaves the walk on top of `stack`: it does not go on, and it does not restore the cursor
  // it saved. A walk around it is displaced unless that cursor is the same.
  function Displaced(s: State, stack: Stack): Marks
    requires stack.On? && stack.top.Walk?
  {
    var displaced := s.cursor != stack.top.saved;
    s.marks.(abortSpoiled := s.marks.abortSpoiled || (displaced && Innermost(stack.rest, Aborting)),
             forceSpoiled := s.marks.forceSpoiled || (displaced && Innermost(stack.rest, Forcing)))
  }

  // The callback on top throws, out of what called it into the user code below: out of a track() that
  // was at its end, out of one that has yet to read forced_, or out of a walk.
  function Thrown(s: State): State
    requires Enabled(s, Throw)
  {
    var below := s.stack.rest;
    if below.Bottom? then s.(stack := below)
    else match below.top
      case Callback => s.(stack := below)
      case Walk(Aborting, _) =>
        s.(stack := below.rest, marks := Displaced(s, below).(torn := true, missed := Pending(s)))
      case Walk(Forcing, _) =>
        s.(stack := below.rest, marks := Displaced(s, below).(unforced := s.marks.unforced + Pending(s)))
      case ReadsForced(n) =>
        if s.forced then s.(stack := below.rest, marks := s.marks.(unforced := s.marks.unforced + {n}))
        else s.(stack := below.rest)
      case ReadsWalked(_) => s.(stack := below.rest)
  }

  function Untracked(s: State, n: Node): State {
    var l := RemoveNode(ListState(s.nodes, s.cursor), n);
    s.(nodes := l.nodes, cursor := l.cursor,
       marks := s.marks.(abortSpoiled := s.marks.abortSpoiled || n in SavedFor(s.stack, Aborting),
                         forceSpoiled := s.marks.forceSpoiled || n in SavedFor(s.stack, Forcing),
                         missed := s.marks.missed - {n}, unforced := s.marks.unforced - {n}))
  }

  function Do(s: State, step: Step): State
    requires Enabled(s, step)
  {
    match step
    case Track(n) =>
      s.(nodes := [n] + s.nodes, aborts := s.aborts[n := 0], forces := s.forces[n := 0],
         stack := On(ReadsWalked(n), s.stack))
    case Untrack(n) => if n in s.nodes then Untracked(s, n) else s
    case Exchange => s.(aborting := true)
    case BeginAbort => s.(walked := true, cursor := Head(s.nodes), stack := On(Walk(Aborting, s.cursor), s.stack))
    case ForceAll => BeginForce(s)
    case StopAborts => s.(aborting := true, stopper := if s.aborting then PastAbort(false) else Waiting)
    case StopReturns => s.(stopper := PastAbort(true))
    case StopForces => BeginForce(s)
    case Return => s.(stack := s.stack.rest)
    case Throw => Thrown(s)
    case Continue => Go(s)
  }

  const START := State([], None, false, false, false, Bottom, multiset{}, multiset{}, Outside,
                       Marks(false, false, false, false, {}, {}))

  ghost predicate Runs(s: State, steps: seq<Step>)
    decreases |steps|
  {
    steps == [] || (Enabled(s, steps[0]) && Runs(Do(s, steps[0]), steps[1..]))
  }

  ghost function After(s: State, steps: seq<Step>): State
    requires Runs(s, steps)
    decreases |steps|
  {
    if steps == [] then s else After(Do(s, steps[0]), steps[1..])
  }

  // ---------- The invariant ----------

  // Nodes inside a track() that is about to read forced_, or will after its abort() returns.
  function Entering(stack: Stack): set<Node> {
    match stack
    case Bottom => {}
    case On(ReadsForced(n), rest) => {n} + Entering(rest)
    case On(_, rest) => Entering(rest)
  }

  // The node of a track() that has not read walked_ yet; user code cannot run in that gap.
  predicate JustAdded(s: State, n: Node) {
    s.stack.On? && s.stack.top == ReadsWalked(n)
  }

  predicate NoneJustAdded(stack: Stack) {
    stack.On? ==> !stack.top.ReadsWalked? && NoneJustAdded(stack.rest)
  }

  // One walk and its cursor: it is at a tracked node or at the end, and what the walk has yet to
  // reach is exactly what still misses its abort(), or covers what misses its force().
  ghost predicate WalkOk(s: State, kind: Kind, cursor: Option<Node>) {
    && (cursor.Some? ==> cursor.value in s.nodes)
    && (forall n :: JustAdded(s, n) ==> n !in From(s.nodes, cursor))
    && (kind.Aborting? ==>
          && s.walked
          && (forall n :: n in s.nodes && !JustAdded(s, n) ==> (Count(s.aborts, n) == 0 <==> n in From(s.nodes, cursor))))
    && (kind.Forcing? ==>
          && s.forced
          && (forall n :: n in s.nodes && Count(s.forces, n) == 0 && !JustAdded(s, n) ==>
                n in From(s.nodes, cursor) || n in Entering(s.stack) || n in s.marks.unforced))
  }

  // The walks of one kind under way, from the innermost out: the innermost walk has the cursor, each
  // other one the cursor saved by the walk inside it.
  ghost predicate WalksOk(s: State, kind: Kind, stack: Stack, cursor: Option<Node>) {
    match stack
    case Bottom => true
    case On(Walk(k, saved), rest) => (k == kind ==> WalkOk(s, kind, cursor)) && WalksOk(s, kind, rest, saved)
    case On(_, rest) => WalksOk(s, kind, rest, cursor)
  }

  predicate OneAbortWalk(stack: Stack) {
    stack.On? ==>
      (stack.top.Walk? && stack.top.kind.Aborting? ==> !Walking(stack.rest, Aborting)) && OneAbortWalk(stack.rest)
  }

  ghost predicate StackOk(s: State) {
    && (s.walked ==> s.aborting)
    && (s.stack.On? ==> NoneJustAdded(s.stack.rest))
    && (s.stack.On? && !s.walked ==> Entering(s.stack.rest) == {})
    && (forall n :: JustAdded(s, n) ==> n in s.nodes && Count(s.aborts, n) == 0 && Count(s.forces, n) == 0)
    && OneAbortWalk(s.stack)
    && (Walking(s.stack, Aborting) ==> s.walked)
    && (Walking(s.stack, Forcing) ==> s.forced)
    && (!s.marks.early && s.forced ==> s.walked && !Walking(s.stack, Aborting))
    && (s.stopper == PastAbort(true) ==> s.walked && !Walking(s.stack, Aborting) && !s.marks.torn)
    && (s.marks.torn ==> s.walked && !Walking(s.stack, Aborting))
    && (!s.marks.torn ==> s.marks.missed == {})
  }

  ghost predicate AbortsOk(s: State) {
    && (forall n :: n in s.nodes ==> Count(s.aborts, n) <= 1)
    && (forall n :: n in s.nodes && !s.walked ==> Count(s.aborts, n) == 0)
    && (forall n :: n in s.nodes && s.walked && !Walking(s.stack, Aborting) && !JustAdded(s, n) ==>
          Count(s.aborts, n) == if n in s.marks.missed then 0 else 1)
    && (forall n :: n in s.marks.missed ==> n in s.nodes && !JustAdded(s, n))
  }

  ghost predicate ForcesOk(s: State) {
    forall n :: n in s.nodes && s.forced && !Walking(s.stack, Forcing) && !JustAdded(s, n) ==>
      Count(s.forces, n) > 0 || n in Entering(s.stack) || n in s.marks.unforced
  }

  // With the force walks after the abort walk, no node is forced that was not aborted first.
  ghost predicate OrderOk(s: State) {
    !s.marks.early ==>
      && (forall n :: n in s.nodes && Count(s.forces, n) > 0 ==> Count(s.aborts, n) == 1 || n in s.marks.missed)
      && (forall n :: n in Entering(s.stack) && s.walked && !JustAdded(s, n) ==> Count(s.aborts, n) == 1)
  }

  ghost predicate AbortSide(s: State) {
    !s.marks.abortSpoiled ==> AbortsOk(s) && OrderOk(s) && WalksOk(s, Aborting, s.stack, s.cursor)
  }

  ghost predicate ForceSide(s: State) {
    !s.marks.forceSpoiled ==> ForcesOk(s) && WalksOk(s, Forcing, s.stack, s.cursor)
  }

  ghost predicate Inv(s: State) {
    Distinct(s.nodes) && StackOk(s) && AbortSide(s) && ForceSide(s)
  }

  // ---------- Every step keeps it ----------

  // What holds of each walk of `stack` in `s` holds of it in `t`.
  lemma {:induction false} WalksCarry(s: State, t: State, kind: Kind, stack: Stack, cursor: Option<Node>)
    requires WalksOk(s, kind, stack, cursor)
    requires Walking(stack, kind) ==> forall c :: WalkOk(s, kind, c) ==> WalkOk(t, kind, c)
    ensures WalksOk(t, kind, stack, cursor)
    decreases stack
  {
    hide WalkOk;
    if stack.On? {
      WalksCarry(s, t, kind, stack.rest, if stack.top.Walk? then stack.top.saved else cursor);
    }
  }

  // The cursor matters only to walks of its kind.
  lemma {:induction false} CursorOfOther(s: State, kind: Kind, stack: Stack, c: Option<Node>, d: Option<Node>)
    requires WalksOk(s, kind, stack, c) && !Innermost(stack, kind)
    ensures WalksOk(s, kind, stack, d)
    decreases stack
  {
    hide WalkOk;
    if stack.On? && !stack.top.Walk? {
      CursorOfOther(s, kind, stack.rest, c, d);
    }
  }

  lemma FromAfterAdd(nodes: seq<Node>, cursor: Option<Node>, n: Node)
    requires Distinct(nodes) && n !in nodes && (cursor.Some? ==> cursor.value in nodes)
    ensures From([n] + nodes, cursor) == From(nodes, cursor) && n !in From(nodes, cursor)
  {
    AddResumes(ListState(nodes, cursor), n);
    NoneRemoved(From(nodes, cursor), [Added(n)]);
  }

  lemma FromAfterRemove(nodes: seq<Node>, cursor: Option<Node>, n: Node)
    requires Distinct(nodes) && n in nodes && (cursor.Some? ==> cursor.value in nodes)
    ensures var r := RemoveNode(ListState(nodes, cursor), n);
            && (r.cursor.Some? ==> r.cursor.value in r.nodes)
            && (forall m :: m in From(r.nodes, r.cursor) <==> m in From(nodes, cursor) && m != n)
            && (forall m :: m in r.nodes <==> m in nodes && m != n)
  {
    RemoveResumes(ListState(nodes, cursor), n);
    assert RemovedIn([Removed(n)]) == {n};
  }

  lemma Advanced(nodes: seq<Node>, n: Node)
    requires Distinct(nodes) && n in nodes
    ensures NextOf(nodes, n).Some? ==> NextOf(nodes, n).value in nodes
    ensures n in From(nodes, Some(n))
    ensures forall m :: m in From(nodes, NextOf(nodes, n)) <==> m in From(nodes, Some(n)) && m != n
  {
    FromNext(nodes, n);
    var rest := From(nodes, Some(n));
    assert rest == [n] + rest[1..];
    assert forall i :: 0 < i < |rest| ==> rest[i] != n;
  }

  lemma HeadStarts(nodes: seq<Node>)
    requires Distinct(nodes)
    ensures From(nodes, Head(nodes)) == nodes
    ensures Head(nodes).Some? ==> Head(nodes).value in nodes
  {
    FromSuffix(nodes, nodes);
  }

  lemma AddKeepsWalk(s: State, n: Node, kind: Kind, cursor: Option<Node>)
    requires Distinct(s.nodes) && Enabled(s, Track(n)) && WalkOk(s, kind, cursor)
    ensures WalkOk(Do(s, Track(n)), kind, cursor)
  {
    hide From, Distinct, RemoveNode, SavedFor, Walking, Go;
    FromAfterAdd(s.nodes, cursor, n);
  }

  lemma RemoveKeepsWalk(s: State, n: Node, kind: Kind, cursor: Option<Node>)
    requires Distinct(s.nodes) && n in s.nodes && Enabled(s, Untrack(n)) && WalkOk(s, kind, cursor)
    ensures WalkOk(Do(s, Untrack(n)), kind, RemoveNode(ListState(s.nodes, cursor), n).cursor)
  {
    hide From, Distinct, RemoveNode;
    RemovedNodes(s, n, cursor);
    FromAfterRemove(s.nodes, cursor, n);
  }

  // The list after a removal does not depend on the cursor.
  lemma RemovedNodes(s: State, n: Node, cursor: Option<Node>)
    requires Enabled(s, Untrack(n))
    ensures Do(s, Untrack(n)).nodes == RemoveNode(ListState(s.nodes, cursor), n).nodes
  {
  }

  lemma {:induction false} WalksAfterRemove(s: State, n: Node, kind: Kind, stack: Stack, cursor: Option<Node>)
    requires Distinct(s.nodes) && n in s.nodes && WalksOk(s, kind, stack, cursor)
    requires Enabled(s, Untrack(n)) && n !in SavedFor(stack, kind)
    ensures WalksOk(Do(s, Untrack(n)), kind, stack, RemoveNode(ListState(s.nodes, cursor), n).cursor)
    decreases stack
  {
    hide WalkOk, Distinct;
    if stack.On? {
      if stack.top.Walk? {
        if stack.top.kind == kind {
          RemoveKeepsWalk(s, n, kind, cursor);
        }
        WalksAfterRemove(s, n, kind, stack.rest, stack.top.saved);
        if !Innermost(stack.rest, kind) {
          CursorOfOther(Do(s, Untrack(n)), kind, stack.rest,
                        RemoveNode(ListState(s.nodes, stack.top.saved), n).cursor, stack.top.saved);
        }
      } else {
        WalksAfterRemove(s, n, kind, stack.rest, cursor);
      }
    }
  }

  lemma KeepsTrack(s: State, n: Node)
    requires Inv(s) && Enabled(s, Track(n))
    ensures Inv(Do(s, Track(n)))
  {
    hide WalkOk, AbortsOk, OrderOk, ForcesOk;
    var t := Do(s, Track(n));
    forall k, c | WalkOk(s, k, c) ensures WalkOk(t, k, c) {
      AddKeepsWalk(s, n, k, c);
    }
    if !s.marks.abortSpoiled {
      WalksCarry(s, t, Aborting, s.stack, s.cursor);
      TrackCounts(s, n);
    }
    if !s.marks.forceSpoiled {
      WalksCarry(s, t, Forcing, s.stack, s.cursor);
      TrackCounts(s, n);
    }
  }

  lemma TrackCounts(s: State, n: Node)
    requires Enabled(s, Track(n))
    ensures var t := Do(s, Track(n));
            && (AbortsOk(s) && OrderOk(s) ==> AbortsOk(t) && OrderOk(t))
            && (ForcesOk(s) ==> ForcesOk(t))
  {
    assert Entering(Do(s, Track(n)).stack) == Entering(s.stack);
    assert forall k :: Walking(Do(s, Track(n)).stack, k) <==> Walking(s.stack, k);
    hide Walking, Entering;
  }

  lemma KeepsUntrack(s: State, n: Node)
    requires Inv(s) && Enabled(s, Untrack(n))
    ensures Inv(Do(s, Untrack(n)))
  {
    hide WalkOk, WalksOk, AbortsOk, OrderOk, ForcesOk;
    var t := Do(s, Untrack(n));
    if n in s.nodes {
      WithoutDistinct(s.nodes, {n});
      assert s.marks.missed == {} ==> t.marks.missed == {};
      if !t.marks.abortSpoiled {
        WalksAfterRemove(s, n, Aborting, s.stack, s.cursor);
        UntrackCounts(s, n);
      }
      if !t.marks.forceSpoiled {
        WalksAfterRemove(s, n, Forcing, s.stack, s.cursor);
        UntrackCounts(s, n);
      }
    }
  }

  lemma UntrackCounts(s: State, n: Node)
    requires Enabled(s, Untrack(n)) && n in s.nodes
    ensures var t := Do(s, Untrack(n));
            && (AbortsOk(s) && OrderOk(s) ==> AbortsOk(t) && OrderOk(t))
            && (ForcesOk(s) ==> ForcesOk(t))
  {
    hide Walking, Entering, SavedFor;
  }

  lemma KeepsReturn(s: State)
    requires Inv(s) && Enabled(s, Return)
    ensures Inv(Do(s, Return))
  {
    hide From, Distinct;
    var t := Do(s, Return);
    if !s.marks.abortSpoiled {
      WalksCarry(s, t, Aborting, t.stack, t.cursor);
    }
    if !s.marks.forceSpoiled {
      WalksCarry(s, t, Forcing, t.stack, t.cursor);
    }
  }

  // What lies below a callback.
  lemma Below(s: State)
    requires StackOk(s) && Enabled(s, Throw) && s.stack.rest.On?
    ensures var b := s.stack.rest;
            && !b.top.ReadsWalked? && NoneJustAdded(b.rest) && OneAbortWalk(b.rest)
            && (b.rest.On? ==> !b.rest.top.ReadsWalked? && NoneJustAdded(b.rest.rest))
            && Entering(s.stack) == Entering(b.rest) + (if b.top.ReadsForced? then {b.top.node} else {})
            && (b.rest.On? && !s.walked ==> Entering(b.rest.rest) == {})
            && (forall k :: Walking(s.stack, k) <==> (b.top.Walk? && b.top.kind == k) || Walking(b.rest, k))
            && (b.top.Walk? && b.top.kind.Aborting? ==> !Walking(b.rest, Aborting))
  {
    var b := s.stack.rest;
    assert NoneJustAdded(b) && OneAbortWalk(b);
    assert Entering(s.stack) == Entering(b);
    if b.rest.On? {
      assert Entering(b.rest.rest) <= Entering(b.rest) <= Entering(b);
    }
  }

  // An exception that leaves a track() before it reads forced_.
  lemma KeepsThrowOutOfTrack(s: State)
    requires Inv(s) && Enabled(s, Throw) && s.stack.rest.On? && s.stack.rest.top.ReadsForced?
    ensures Inv(Do(s, Throw))
  {
    Below(s);
    hide From, Distinct, WalksOk, Entering, OneAbortWalk, NoneJustAdded, Walking;
    var t := Do(s, Throw);
    if !s.marks.abortSpoiled {
      LeaveTrackWalks(s, Aborting);
      assert AbortsOk(t);
      assert OrderOk(t);
    }
    if !s.marks.forceSpoiled {
      LeaveTrackWalks(s, Forcing);
      assert ForcesOk(t);
    }
    assert StackOk(t);
  }

  lemma LeaveTrackWalks(s: State, kind: Kind)
    requires StackOk(s) && Enabled(s, Throw) && s.stack.rest.On? && s.stack.rest.top.ReadsForced?
    requires WalksOk(s, kind, s.stack, s.cursor)
    ensures WalksOk(Do(s, Throw), kind, Do(s, Throw).stack, s.cursor)
  {
    Below(s);
    assert WalksOk(s, kind, s.stack.rest.rest, s.cursor);
    hide From, Entering, OneAbortWalk, NoneJustAdded;
    WalksCarry(s, Do(s, Throw), kind, s.stack.rest.rest, s.cursor);
  }

  // A walk that is left takes its own pending nodes with it; the walk around it goes on from this cursor.
  lemma KeepsThrowOutOfWalk(s: State)
    requires Inv(s) && Enabled(s, Throw) && s.stack.rest.On? && s.stack.rest.top.Walk?
    ensures Inv(Do(s, Throw))
  {
    hide From, Distinct, WalksOk, AbortsOk, OrderOk, ForcesOk;
    var t := Do(s, Throw);
    LeaveWalkStack(s);
    if !t.marks.abortSpoiled {
      LeaveWalkWalks(s, Aborting);
      LeaveWalkAborts(s);
    }
    if !t.marks.forceSpoiled {
      LeaveWalkWalks(s, Forcing);
      LeaveWalkForces(s);
    }
  }

  // What the exception leaves of the state, and that the stack stays well formed.
  lemma LeaveWalkStack(s: State)
    requires StackOk(s) && Enabled(s, Throw) && s.stack.rest.On? && s.stack.rest.top.Walk?
    ensures var t := Do(s, Throw);
            && StackOk(t) && t.stack == s.stack.rest.rest && Entering(t.stack) == Entering(s.stack)
            && t.nodes == s.nodes && t.cursor == s.cursor && t.walked == s.walked && t.forced == s.forced
            && t.aborts == s.aborts && t.forces == s.forces && t.marks.early == s.marks.early
            && (forall n :: !JustAdded(s, n) && !JustAdded(t, n))
  {
    Below(s);
    hide From, Entering, OneAbortWalk, NoneJustAdded, Walking;
    assert forall m :: m in Pending(s) ==> m in From(s.nodes, s.cursor);
  }

  lemma LeaveWalkWalks(s: State, kind: Kind)
    requires StackOk(s) && Enabled(s, Throw) && s.stack.rest.On? && s.stack.rest.top.Walk?
    requires WalksOk(s, kind, s.stack, s.cursor)
    requires s.cursor != s.stack.rest.top.saved ==> !Innermost(s.stack.rest.rest, kind)
    ensures WalksOk(Do(s, Throw), kind, Do(s, Throw).stack, s.cursor)
  {
    var t, below := Do(s, Throw), s.stack.rest;
    LeaveWalkStack(s);
    assert s.marks.unforced <= t.marks.unforced;
    assert WalksOk(s, kind, below.rest, below.top.saved);
    hide Do, Enabled, StackOk, From;
    if s.cursor != below.top.saved {
      CursorOfOther(s, kind, below.rest, below.top.saved, s.cursor);
    }
    WalksCarry(s, t, kind, t.stack, s.cursor);
  }

  lemma LeaveWalkAborts(s: State)
    requires StackOk(s) && AbortsOk(s) && OrderOk(s) && WalksOk(s, Aborting, s.stack, s.cursor)
    requires Enabled(s, Throw) && s.stack.rest.On? && s.stack.rest.top.Walk?
    ensures AbortsOk(Do(s, Throw)) && OrderOk(Do(s, Throw))
  {
    var t, below := Do(s, Throw), s.stack.rest;
    Below(s);
    LeaveWalkStack(s);
    if below.top.kind.Aborting? {
      assert WalkOk(s, Aborting, s.cursor);
      assert t.marks.missed == Pending(s);
      PendingAreTracked(s);
    } else {
      assert t.marks.missed == s.marks.missed;
    }
    hide Do, Enabled, From, Entering, Walking, WalksOk;
  }

  lemma PendingAreTracked(s: State)
    requires s.cursor.Some? ==> s.cursor.value in s.nodes
    ensures forall m :: m in Pending(s) <==> m in From(s.nodes, s.cursor)
    ensures forall m :: m in Pending(s) ==> m in s.nodes
  {
  }

  lemma LeaveWalkForces(s: State)
    requires StackOk(s) && ForcesOk(s) && WalksOk(s, Forcing, s.stack, s.cursor)
    requires Enabled(s, Throw) && s.stack.rest.On? && s.stack.rest.top.Walk?
    ensures ForcesOk(Do(s, Throw))
  {
    var t, below := Do(s, Throw), s.stack.rest;
    Below(s);
    LeaveWalkStack(s);
    if below.top.kind.Forcing? {
      assert WalkOk(s, Forcing, s.cursor);
      assert t.marks.unforced == s.marks.unforced + Pending(s);
    } else {
      assert t.marks.unforced == s.marks.unforced;
    }
    hide Do, Enabled, From, Entering, Walking, WalksOk;
  }

  lemma KeepsThrow(s: State)
    requires Inv(s) && Enabled(s, Throw)
    ensures Inv(Do(s, Throw))
  {
    if InUserCode(s.(stack := s.stack.rest)) {
      KeepsReturn(s);
    } else {
      Below(s);
      hide Inv;
      if s.stack.rest.top.Walk? {
        KeepsThrowOutOfWalk(s);
      } else {
        KeepsThrowOutOfTrack(s);
      }
    }
  }

  // The steps of the threads outside the loop touch neither the list nor the walks.
  lemma KeepsOutside(s: State, step: Step)
    requires Inv(s) && Enabled(s, step) && (step.Exchange? || step.StopAborts? || step.StopReturns?)
    ensures Inv(Do(s, step))
  {
    hide From, Distinct;
    var t := Do(s, step);
    if !s.marks.abortSpoiled {
      WalksCarry(s, t, Aborting, s.stack, s.cursor);
    }
    if !s.marks.forceSpoiled {
      WalksCarry(s, t, Forcing, s.stack, s.cursor);
    }
  }

  lemma KeepsBeginAbort(s: State)
    requires Inv(s) && Enabled(s, BeginAbort)
    ensures Inv(Do(s, BeginAbort))
  {
    hide From, Distinct, Head;
    var t := Do(s, BeginAbort);
    assert Entering(s.stack) == {};
    assert Entering(t.stack) == Entering(s.stack);
    HeadStarts(s.nodes);
    if !s.marks.abortSpoiled {
      WalksCarry(s, t, Aborting, s.stack, s.cursor);
      assert WalkOk(t, Aborting, t.cursor);
      assert AbortsOk(t);
      assert OrderOk(t);
    }
    if !s.marks.forceSpoiled {
      WalksCarry(s, t, Forcing, s.stack, s.cursor);
      assert WalksOk(t, Forcing, t.stack, t.cursor);
      assert ForcesOk(t);
    }
    assert StackOk(t);
  }

  lemma KeepsBeginForce(s: State)
    requires Inv(s) && InUserCode(s)
    ensures Inv(BeginForce(s))
  {
    hide From, Distinct, Head;
    var t := BeginForce(s);
    HeadStarts(s.nodes);
    if !s.marks.abortSpoiled {
      WalksCarry(s, t, Aborting, s.stack, s.cursor);
    }
    if !s.marks.forceSpoiled {
      WalksCarry(s, t, Forcing, s.stack, s.cursor);
      assert WalkOk(t, Forcing, t.cursor);
    }
  }

  // track() reads walked_.
  lemma KeepsReadWalked(s: State)
    requires Inv(s) && Enabled(s, Continue) && s.stack.top.ReadsWalked?
    ensures Inv(Do(s, Continue))
  {
    hide From, NextOf, Distinct, WalksOk;
    var t := Do(s, Continue);
    var inner := On(ReadsForced(s.stack.top.node), s.stack.rest);
    assert Entering(inner) == Entering(s.stack) + {s.stack.top.node};
    assert forall k :: Walking(inner, k) <==> Walking(s.stack, k);
    assert forall k :: Walking(t.stack, k) <==> Walking(s.stack, k);
    if !s.marks.abortSpoiled {
      ReadWalkedWalks(s, Aborting);
      assert AbortsOk(t);
      assert OrderOk(t);
    }
    if !s.marks.forceSpoiled {
      ReadWalkedWalks(s, Forcing);
      assert ForcesOk(t);
    }
    assert OneAbortWalk(inner);
    assert StackOk(t);
  }

  lemma ReadWalkedWalks(s: State, kind: Kind)
    requires StackOk(s) && Enabled(s, Continue) && s.stack.top.ReadsWalked? && WalksOk(s, kind, s.stack, s.cursor)
    ensures WalksOk(Do(s, Continue), kind, Do(s, Continue).stack, Do(s, Continue).cursor)
  {
    hide From, NextOf;
    var t := Do(s, Continue);
    var inner := On(ReadsForced(s.stack.top.node), s.stack.rest);
    assert Entering(inner) == Entering(s.stack) + {s.stack.top.node};
    WalksCarry(s, t, kind, s.stack.rest, s.cursor);
    assert WalksOk(t, kind, inner, s.cursor);
  }

  // track() reads forced_.
  lemma KeepsReadForced(s: State)
    requires Inv(s) && Enabled(s, Continue) && s.stack.top.ReadsForced?
    ensures Inv(Do(s, Continue))
  {
    hide From, NextOf, Distinct, WalksOk;
    var t := Do(s, Continue);
    assert Entering(s.stack) == Entering(s.stack.rest) + {s.stack.top.node};
    assert Entering(t.stack) == Entering(s.stack.rest);
    assert forall k :: Walking(t.stack, k) <==> Walking(s.stack, k);
    if !s.marks.abortSpoiled {
      ReadForcedWalks(s, Aborting);
      assert AbortsOk(t);
      assert OrderOk(t);
    }
    if !s.marks.forceSpoiled {
      ReadForcedWalks(s, Forcing);
      assert ForcesOk(t);
    }
    assert StackOk(t);
  }

  lemma ReadForcedWalks(s: State, kind: Kind)
    requires StackOk(s) && Enabled(s, Continue) && s.stack.top.ReadsForced? && WalksOk(s, kind, s.stack, s.cursor)
    ensures WalksOk(Do(s, Continue), kind, Do(s, Continue).stack, Do(s, Continue).cursor)
  {
    hide From, NextOf;
    WalksCarry(s, Do(s, Continue), kind, s.stack.rest, s.cursor);
  }

  // A walk is over.
  lemma KeepsWalkEnd(s: State)
    requires Inv(s) && Enabled(s, Continue) && s.stack.top.Walk? && s.cursor.None?
    ensures Inv(Do(s, Continue))
  {
    hide Distinct, NextOf;
    var t := Do(s, Continue);
    if !s.marks.abortSpoiled {
      WalksCarry(s, t, Aborting, s.stack.rest, t.cursor);
    }
    if !s.marks.forceSpoiled {
      WalksCarry(s, t, Forcing, s.stack.rest, t.cursor);
    }
  }

  // A walk moves on and calls back.
  lemma KeepsAdvance(s: State)
    requires Inv(s) && Enabled(s, Continue) && s.stack.top.Walk? && s.cursor.Some?
    ensures Inv(Do(s, Continue))
  {
    hide From, NextOf, Distinct, AbortsOk, OrderOk, ForcesOk, WalksOk;
    if !s.marks.abortSpoiled {
      AdvanceWalks(s, Aborting);
      AdvanceAborts(s);
    }
    if !s.marks.forceSpoiled {
      AdvanceWalks(s, Forcing);
      AdvanceForces(s);
    }
  }

  lemma AdvanceWalks(s: State, kind: Kind)
    requires Distinct(s.nodes) && StackOk(s) && WalksOk(s, kind, s.stack, s.cursor)
    requires Enabled(s, Continue) && s.stack.top.Walk? && s.cursor.Some?
    ensures WalksOk(Do(s, Continue), kind, Do(s, Continue).stack, Do(s, Continue).cursor)
  {
    hide From, NextOf, Distinct;
    var t := Do(s, Continue);
    if s.stack.top.kind == kind {
      Advanced(s.nodes, s.cursor.value);
      assert WalkOk(t, kind, t.cursor);
    }
    WalksCarry(s, t, kind, s.stack.rest, s.stack.top.saved);
    assert WalksOk(t, kind, s.stack, t.cursor);
  }

  lemma AdvanceAborts(s: State)
    requires Inv(s) && !s.marks.abortSpoiled && Enabled(s, Continue) && s.stack.top.Walk? && s.cursor.Some?
    ensures AbortsOk(Do(s, Continue)) && OrderOk(Do(s, Continue))
  {
    hide From, NextOf, Distinct;
    assert s.cursor.value in From(s.nodes, s.cursor);
    if s.stack.top.kind.Aborting? {
      assert WalkOk(s, Aborting, s.cursor);
    }
  }

  lemma AdvanceForces(s: State)
    requires Inv(s) && !s.marks.forceSpoiled && Enabled(s, Continue) && s.stack.top.Walk? && s.cursor.Some?
    ensures ForcesOk(Do(s, Continue))
  {
    hide From, NextOf, Distinct;
  }

  lemma StepKeeps(s: State, step: Step)
    requires Inv(s) && Enabled(s, step)
    ensures Inv(Do(s, step))
  {
    hide Inv;
    match step
    case Track(n) => KeepsTrack(s, n);
    case Untrack(n) => KeepsUntrack(s, n);
    case BeginAbort => KeepsBeginAbort(s);
    case ForceAll => KeepsBeginForce(s);
    case StopForces => KeepsBeginForce(s);
    case Return => KeepsReturn(s);
    case Throw => KeepsThrow(s);
    case Continue =>
      if s.stack.top.ReadsWalked? {
        KeepsReadWalked(s);
      } else if s.stack.top.ReadsForced? {
        KeepsReadForced(s);
      } else if s.cursor.None? {
        KeepsWalkEnd(s);
      } else {
        KeepsAdvance(s);
      }
    case _ => KeepsOutside(s, step);
  }

  lemma {:induction false} RunKeeps(s: State, steps: seq<Step>)
    requires Inv(s) && Runs(s, steps)
    ensures Inv(After(s, steps))
    decreases |steps|
  {
    if steps != [] {
      StepKeeps(s, steps[0]);
      RunKeeps(Do(s, steps[0]), steps[1..]);
    }
  }

  // ---------- Main results ----------

  // In every run, whatever the callbacks track, untrack and walk: no node is aborted twice in one
  // tracking, none before the walk has begun, and once the walk has ended every node that user code
  // finds tracked has been aborted exactly once. What happens to force walks does not matter.
  lemma AbortedExactlyOnce(steps: seq<Step>, n: Node)
    requires Runs(START, steps) && !After(START, steps).marks.abortSpoiled && n in After(START, steps).nodes
    ensures var s := After(START, steps);
            && Count(s.aborts, n) <= 1
            && (!s.walked ==> Count(s.aborts, n) == 0)
            && (s.walked && !Walking(s.stack, Aborting) && InUserCode(s) ==>
                  Count(s.aborts, n) == if n in s.marks.missed then 0 else 1)
            && (!s.marks.torn ==> n !in s.marks.missed)
  {
    RunKeeps(START, steps);
  }

  // Once every force walk has ended, every node tracked has been forced in its current tracking. What
  // happens to the abort walk does not matter.
  lemma ForcedAfterTheWalk(steps: seq<Step>, n: Node)
    requires Runs(START, steps) && !After(START, steps).marks.forceSpoiled && n in After(START, steps).nodes
    ensures var s := After(START, steps);
            s.forced && s.stack.Bottom? ==> Count(s.forces, n) > 0 || n in s.marks.unforced
  {
    RunKeeps(START, steps);
  }

  // force() waits for force_all(): before any force walk has begun no node has been forced, by a late
  // track() or otherwise.
  lemma NoForceBeforeForceAll(steps: seq<Step>, n: Node)
    requires Runs(START, steps)
    ensures !After(START, steps).forced ==> Count(After(START, steps).forces, n) == 0
  {
    assert Inv(START);
    UnforcedStays(START, steps, n);
  }

  lemma {:induction false} UnforcedStays(s: State, steps: seq<Step>, n: Node)
    requires Inv(s) && Runs(s, steps) && (!s.forced ==> Count(s.forces, n) == 0)
    ensures !After(s, steps).forced ==> Count(After(s, steps).forces, n) == 0
    decreases |steps|
  {
    if steps != [] {
      StepKeeps(s, steps[0]);
      UnforcedStep(s, steps[0], n);
      hide Do, Enabled, Inv;
      UnforcedStays(Do(s, steps[0]), steps[1..], n);
    }
  }

  lemma UnforcedStep(s: State, step: Step, n: Node)
    requires StackOk(s) && Enabled(s, step) && (!s.forced ==> Count(s.forces, n) == 0)
    ensures !Do(s, step).forced ==> Count(Do(s, step).forces, n) == 0
  {
    ForceStep(s, step, n);
    ForcedStays(s, step);
    hide Do;
  }

  lemma ForcedStays(s: State, step: Step)
    requires Enabled(s, step)
    ensures s.forced ==> Do(s, step).forced
  {
    hide NextOf, RemoveNode, SavedFor, Walking, Bump, From;
  }

  // A step calls abort() and force() on a node at most once.
  lemma OneCallAStep(s: State, step: Step, n: Node)
    requires Enabled(s, step)
    ensures Count(Do(s, step).forces, n) <= Count(s.forces, n) + 1
    ensures Count(Do(s, step).aborts, n) <= Count(s.aborts, n) + 1
  {
    hide NextOf, RemoveNode, SavedFor, Walking, From;
    if step.Continue? && s.stack.top.Walk? {
      OneCallAWalk(s, n);
    }
  }

  lemma OneCallAWalk(s: State, n: Node)
    requires Enabled(s, Continue) && s.stack.top.Walk?
    ensures Count(Go(s).forces, n) <= Count(s.forces, n) + 1
    ensures Count(Go(s).aborts, n) <= Count(s.aborts, n) + 1
  {
    hide NextOf, InUserCode, Walking;
  }

  // Whether n is tracked after `steps`, if it `was` before: what the last track() or untrack() of it says.
  function LastSays(was: bool, steps: seq<Step>, n: Node): bool
    decreases |steps|
  {
    if steps == [] then was
    else LastSays(if steps[0] == Track(n) then true else if steps[0] == Untrack(n) then false else was, steps[1..], n)
  }

  // In every run exactly the nodes last tracked and not untracked since are in the list, whatever walks,
  // callbacks and exceptions do.
  lemma {:induction false} TrackedIs(s: State, steps: seq<Step>, n: Node)
    requires Runs(s, steps)
    ensures n in After(s, steps).nodes <==> LastSays(n in s.nodes, steps, n)
    decreases |steps|
  {
    if steps != [] {
      TrackedStep(s, steps[0], n);
      hide Do, Enabled;
      TrackedIs(Do(s, steps[0]), steps[1..], n);
    }
  }

  lemma TrackedStep(s: State, step: Step, n: Node)
    requires Enabled(s, step)
    ensures n in Do(s, step).nodes <==>
              (if step == Track(n) then true else if step == Untrack(n) then false else n in s.nodes)
  {
    hide NextOf, SavedFor, Count, From, Walking;
  }

  // When every force walk begins after the abort walk has ended, force() is never called on a node
  // that was not aborted in its current tracking.
  lemma NoForceBeforeAbort(steps: seq<Step>, next: Step, n: Node)
    requires Runs(START, steps) && Enabled(After(START, steps), next)
    requires var s := After(START, steps); !s.marks.early && !s.marks.abortSpoiled && (n in s.nodes || !s.marks.forceSpoiled)
    requires n !in After(START, steps).marks.missed
    requires Count(Do(After(START, steps), next).forces, n) > Count(After(START, steps).forces, n)
    ensures var s := After(START, steps);
            Count(s.aborts, n) == 1 && s.walked && !Walking(s.stack, Aborting)
  {
    RunKeeps(START, steps);
    hide Inv, Do, Enabled;
    ForcesTheAborted(After(START, steps), next, n);
  }

  lemma ForceStep(s: State, step: Step, n: Node)
    requires Enabled(s, step)
    ensures Count(Do(s, step).forces, n) > Count(s.forces, n) ==> step.Continue? && ForcedNext(s) == Some(n)
  {
    hide Go, ForcedNext, RemoveNode, Walking, SavedFor;
    if step.Continue? {
      GoForces(s, n);
    }
  }

  lemma GoForces(s: State, n: Node)
    requires Enabled(s, Continue)
    ensures Count(Go(s).forces, n) > Count(s.forces, n) ==> ForcedNext(s) == Some(n)
  {
    hide NextOf;
    if s.stack.top.Walk? {
      WalkForces(s, n);
    }
  }

  lemma WalkForces(s: State, n: Node)
    requires Enabled(s, Continue) && s.stack.top.Walk?
    ensures Count(Go(s).forces, n) > Count(s.forces, n) ==> ForcedNext(s) == Some(n)
  {
    hide NextOf, InUserCode, Walking;
  }

  lemma ForcesTheAborted(s: State, step: Step, n: Node)
    requires Inv(s) && !s.marks.early && !s.marks.abortSpoiled && (n in s.nodes || !s.marks.forceSpoiled)
    requires n !in s.marks.missed
    requires Enabled(s, step) && Count(Do(s, step).forces, n) > Count(s.forces, n)
    ensures Count(s.aborts, n) == 1 && s.walked && !Walking(s.stack, Aborting)
  {
    ForceStep(s, step, n);
    hide Do, Distinct, From;
    if s.stack.top.Walk? && !s.marks.forceSpoiled {
      assert WalkOk(s, Forcing, s.cursor);
    }
  }

  // Where the abort walk under way has got to.
  function AbortCursor(stack: Stack, cursor: Option<Node>): Option<Node> {
    match stack
    case Bottom => None
    case On(Walk(Aborting, _), _) => cursor
    case On(Walk(Forcing, saved), rest) => AbortCursor(rest, saved)
    case On(_, rest) => AbortCursor(rest, cursor)
  }

  lemma {:induction false} AbortWalkOk(s: State, stack: Stack, cursor: Option<Node>)
    requires WalksOk(s, Aborting, stack, cursor) && Walking(stack, Aborting)
    ensures WalkOk(s, Aborting, AbortCursor(stack, cursor))
    decreases stack
  {
    if !(stack.top.Walk? && stack.top.kind.Aborting?) {
      AbortWalkOk(s, stack.rest, if stack.top.Walk? then stack.top.saved else cursor);
    }
  }

  // Without that order, exactly when: a step that calls force() on a tracked node calls it before
  // abort() if and only if the abort walk has not begun or has yet to reach the node.
  lemma ForceComesFirstIff(steps: seq<Step>, next: Step, n: Node)
    requires Runs(START, steps) && Enabled(After(START, steps), next)
    requires !After(START, steps).marks.abortSpoiled && n in After(START, steps).nodes
    requires Count(Do(After(START, steps), next).forces, n) > Count(After(START, steps).forces, n)
    ensures var s := After(START, steps);
            Count(s.aborts, n) == 0 <==>
              || !s.walked || n in s.marks.missed
              || (Walking(s.stack, Aborting) && n in From(s.nodes, AbortCursor(s.stack, s.cursor)))
  {
    RunKeeps(START, steps);
    var s := After(START, steps);
    ForceStep(s, next, n);
    hide Do, NextOf, Distinct, From, Runs, After;
    if Walking(s.stack, Aborting) {
      AbortWalkOk(s, s.stack, s.cursor);
    }
  }

  lemma RunsOn(s: State, step: Step, rest: seq<Step>)
    requires Enabled(s, step) && Runs(Do(s, step), rest)
    ensures Runs(s, [step] + rest) && After(s, [step] + rest) == After(Do(s, step), rest)
  {
    assert ([step] + rest)[1..] == rest;
  }

  // The states of a track() of one node before any walk.
  lemma TrackedAlone(n: Node) returns (s1: State, s2: State, s3: State)
    ensures Enabled(START, Track(n)) && s1 == Do(START, Track(n))
    ensures Enabled(s1, Continue) && s2 == Do(s1, Continue)
    ensures Enabled(s2, Continue) && s3 == Do(s2, Continue)
    ensures s3 == START.(nodes := [n], aborts := multiset{}, forces := multiset{})
  {
    s1 := Do(START, Track(n));
    s2 := Do(s1, Continue);
    s3 := Do(s2, Continue);
    assert [n] + START.nodes == [n];
  }

  lemma Prefixed(n: Node, s1: State, s2: State, s3: State, rest: seq<Step>) returns (steps: seq<Step>)
    requires Enabled(START, Track(n)) && s1 == Do(START, Track(n))
    requires Enabled(s1, Continue) && s2 == Do(s1, Continue)
    requires Enabled(s2, Continue) && s3 == Do(s2, Continue)
    requires Runs(s3, rest)
    ensures steps == [Track(n)] + ([Continue] + ([Continue] + rest))
    ensures Runs(START, steps) && After(START, steps) == After(s3, rest)
  {
    RunsOn(s2, Continue, rest);
    RunsOn(s1, Continue, [Continue] + rest);
    RunsOn(START, Track(n), [Continue] + ([Continue] + rest));
    steps := [Track(n)] + ([Continue] + ([Continue] + rest));
  }

  // And it does happen: a force_all() alone forces a node that has had no abort().
  lemma ForceAloneComesFirst(n: Node) returns (steps: seq<Step>)
    ensures Runs(START, steps)
    ensures var s := After(START, steps);
            && !s.marks.abortSpoiled && !s.marks.forceSpoiled && s.nodes == [n]
            && Count(s.forces, n) == 1 && Count(s.aborts, n) == 0
  {
    var s1, s2, s3 := TrackedAlone(n);
    var s4 := Do(s3, ForceAll);
    var forcing: seq<Step> := [Continue] + [];
    RunsOn(s4, Continue, []);
    RunsOn(s3, ForceAll, forcing);
    steps := Prefixed(n, s1, s2, s3, [ForceAll] + forcing);
  }

  // ---------- An abort() that throws ----------

  // A callback frame lies on what called it, and that on user code: an exception gets there.
  predicate Layered(stack: Stack) {
    stack.On? ==> (stack.top.Callback? || stack.rest.Bottom? || stack.rest.top.Callback?) && Layered(stack.rest)
  }

  lemma LayeredKeeps(s: State, step: Step)
    requires Layered(s.stack) && Enabled(s, step)
    ensures Layered(Do(s, step).stack) && (step.Throw? ==> InUserCode(Do(s, step)))
  {
    hide NextOf, RemoveNode, SavedFor, Count;
    if step.Throw? && s.stack.rest.On? {
      assert Layered(s.stack.rest) && Layered(s.stack.rest.rest);
    }
  }

  lemma {:induction false} ThrowReachesUserCode(s: State, steps: seq<Step>)
    requires Layered(s.stack) && Runs(s, steps)
    ensures Layered(After(s, steps).stack)
    ensures steps != [] && steps[|steps| - 1].Throw? ==> InUserCode(After(s, steps))
    decreases |steps|
  {
    if steps != [] {
      LayeredKeeps(s, steps[0]);
      hide Do, Enabled;
      ThrowReachesUserCode(Do(s, steps[0]), steps[1..]);
    }
  }

  lemma MissedStep(s: State, step: Step, n: Node)
    requires StackOk(s) && Enabled(s, step) && n in s.marks.missed && step != Untrack(n)
    ensures n in Do(s, step).marks.missed
  {
    hide NextOf, RemoveNode, SavedFor, Count, NoneJustAdded, OneAbortWalk;
    if step.Throw? && s.stack.rest.On? {
      Below(s);
    }
  }

  lemma {:induction false} StaysMissed(s: State, steps: seq<Step>, n: Node)
    requires Inv(s) && Runs(s, steps) && n in s.marks.missed
    requires forall k :: 0 <= k < |steps| ==> steps[k] != Untrack(n)
    ensures n in After(s, steps).marks.missed
    decreases |steps|
  {
    if steps != [] {
      StepKeeps(s, steps[0]);
      MissedStep(s, steps[0], n);
      hide Do, Enabled, Inv;
      StaysMissed(Do(s, steps[0]), steps[1..], n);
    }
  }

  // An abort() that throws out of the walk ends it for good: in every continuation, the nodes it had yet
  // to reach are not aborted as long as they stay tracked.
  lemma MissedNeverAborted(steps: seq<Step>, more: seq<Step>, n: Node)
    requires Runs(START, steps) && Runs(After(START, steps), more) && n in After(START, steps).marks.missed
    requires forall k :: 0 <= k < |more| ==> more[k] != Untrack(n)
    requires !After(After(START, steps), more).marks.abortSpoiled
    ensures var t := After(After(START, steps), more); n in t.nodes && Count(t.aborts, n) == 0
  {
    RunKeeps(START, steps);
    hide Do, Enabled;
    RunKeeps(After(START, steps), more);
    StaysMissed(After(START, steps), more, n);
  }

  // It does happen: of two nodes, the walk aborts the one in front, whose abort() throws, and misses the
  // other.
  lemma ThrowMissesTheRest(n: Node, m: Node) returns (steps: seq<Step>)
    requires n != m
    ensures Runs(START, steps)
    ensures var s := After(START, steps);
            && !s.marks.abortSpoiled && s.nodes == [m, n] && n in s.marks.missed
            && s.walked && s.stack.Bottom? && Count(s.aborts, m) == 1 && Count(s.aborts, n) == 0
  {
    var s1, s2, s3 := TrackedAlone(n);
    var s6 := s3.(nodes := [m, n]);
    var s7 := s6.(aborting := true);
    var s8 := s7.(walked := true, cursor := Some(m), stack := On(Walk(Aborting, None), Bottom));
    var s9 := s8.(cursor := Some(n), stack := On(Callback, s8.stack), aborts := multiset{m});
    var s10 := s9.(stack := Bottom, marks := s9.marks.(torn := true, missed := {n}));
    assert Runs(s10, []) && After(s10, []) == s10;
    hide Runs, After;
    VisitThenThrow(n, m, s8, s9, s10);
    RunsOn(s9, Throw, []);
    RunsOn(s8, Continue, [Throw] + []);
    steps := WalkedInto(n, m, s3, s6, s7, s8, [Continue] + ([Throw] + []));
    steps := Prefixed(n, s1, s2, s3, steps);
  }

  lemma VisitThenThrow(n: Node, m: Node, s: State, t: State, u: State)
    requires n != m && s.nodes == [m, n] && s.cursor == Some(m) && s.stack == On(Walk(Aborting, None), Bottom)
    requires s.aborts == multiset{}
    requires t == s.(cursor := Some(n), stack := On(Callback, s.stack), aborts := multiset{m})
    requires u == t.(stack := Bottom, marks := t.marks.(torn := true, missed := {n}))
    ensures Enabled(s, Continue) && Do(s, Continue) == t
    ensures Enabled(t, Throw) && Do(t, Throw) == u
  {
    hide Walking, SavedFor, RemoveNode;
    NextIs([m, n], 0);
    IndexIs([m, n], 1);
    assert Pending(t) == {n};
    hide NextOf, From;
  }

  lemma WalkedInto(n: Node, m: Node, s3: State, s6: State, s7: State, s8: State, rest: seq<Step>)
    returns (steps: seq<Step>)
    requires n != m && s3 == START.(nodes := [n], aborts := multiset{}, forces := multiset{})
    requires s6 == s3.(nodes := [m, n]) && s7 == s6.(aborting := true)
    requires s8 == s7.(walked := true, cursor := Some(m), stack := On(Walk(Aborting, None), Bottom)) && Runs(s8, rest)
    ensures Runs(s3, steps) && After(s3, steps) == After(s8, rest)
  {
    hide Runs, After, NextOf, From;
    var s4 := s6.(stack := On(ReadsWalked(m), Bottom));
    var s5 := s6.(stack := On(ReadsForced(m), Bottom));
    assert [m] + s3.nodes == [m, n];
    assert Do(s7, BeginAbort) == s8;
    RunsOn(s7, BeginAbort, rest);
    RunsOn(s6, Exchange, [BeginAbort] + rest);
    RunsOn(s5, Continue, [Exchange] + ([BeginAbort] + rest));
    RunsOn(s4, Continue, [Continue] + ([Exchange] + ([BeginAbort] + rest)));
    assert Do(s3, Track(m)) == s4;
    RunsOn(s3, Track(m), [Continue] + ([Continue] + ([Exchange] + ([BeginAbort] + rest))));
    steps := [Track(m)] + ([Continue] + ([Continue] + ([Exchange] + ([BeginAbort] + rest))));
  }

  // ---------- Sessions ----------

  lemma {:induction false} StaysTracked(steps: seq<Step>, n: Node)
    requires forall k :: 0 <= k < |steps| ==> steps[k] != Untrack(n)
    ensures LastSays(true, steps, n)
    decreases |steps|
  {
    if steps != [] {
      StaysTracked(steps[1..], n);
    }
  }

  // run_session calls the user's session if its control was not aborted when it was tracked. Such a
  // session that still runs when the abort walk has ended has been asked to stop exactly once, unless an
  // abort() threw before the walk came to it.
  lemma RunningSessionAskedOnce(steps: seq<Step>, more: seq<Step>, n: Node)
    requires Runs(START, steps) && n in After(START, steps).nodes && Count(After(START, steps).aborts, n) == 0
    requires Runs(After(START, steps), more) && forall k :: 0 <= k < |more| ==> more[k] != Untrack(n)
    requires var t := After(After(START, steps), more);
             t.walked && !Walking(t.stack, Aborting) && InUserCode(t) && !t.marks.abortSpoiled
    ensures var t := After(After(START, steps), more);
            n in t.nodes && Count(t.aborts, n) == if n in t.marks.missed then 0 else 1
  {
    RunKeeps(START, steps);
    hide Do, Enabled;
    RunKeeps(After(START, steps), more);
    TrackedIs(After(START, steps), more, n);
    StaysTracked(more, n);
  }

  // ---------- The order of stop() ----------

  // stop() calls force_all() after abort_all() has returned. That alone does not order the walks: an
  // abort_all() that loses the exchange returns at once. Its force walk comes early if and only if it
  // lost the exchange and the winner's walk has not ended.
  lemma StopForcesEarlyIff(steps: seq<Step>)
    requires Runs(START, steps) && Enabled(After(START, steps), StopForces) && !After(START, steps).marks.early
    ensures var s := After(START, steps);
            Do(s, StopForces).marks.early <==>
              s.stopper == PastAbort(false) && (!s.walked || Walking(s.stack, Aborting))
  {
    RunKeeps(START, steps);
  }

  // stop() is the only one to force: then a force walk means it is past its abort_all(), and an early one
  // that it lost the exchange.
  ghost predicate StopForcesOnly(s: State) {
    (s.forced ==> s.stopper.PastAbort?) && (s.marks.early ==> s.stopper == PastAbort(false))
  }

  lemma StepOrders(s: State, step: Step)
    requires StackOk(s) && Enabled(s, step) && !step.ForceAll? && StopForcesOnly(s)
    ensures StopForcesOnly(Do(s, step))
  {
    hide NextOf, RemoveNode, SavedFor, Count, Entering, OneAbortWalk, NoneJustAdded;
  }

  lemma {:induction false} StopOrders(s: State, steps: seq<Step>)
    requires Inv(s) && Runs(s, steps) && forall k :: 0 <= k < |steps| ==> !steps[k].ForceAll?
    requires StopForcesOnly(s)
    ensures StopForcesOnly(After(s, steps))
    decreases |steps|
  {
    if steps != [] {
      StepKeeps(s, steps[0]);
      StepOrders(s, steps[0]);
      hide Do, Enabled, Inv;
      StopOrders(Do(s, steps[0]), steps[1..]);
    }
  }

  // So when stop() won the exchange, or has not lost it yet, and nobody else forces, the order holds: an
  // abort() that threw out of the walk keeps stop() in its abort_all().
  lemma WinnerForcesInOrder(steps: seq<Step>, next: Step, n: Node)
    requires Runs(START, steps) && forall k :: 0 <= k < |steps| ==> !steps[k].ForceAll?
    requires var s := After(START, steps);
             s.stopper != PastAbort(false) && !s.marks.abortSpoiled && (n in s.nodes || !s.marks.forceSpoiled)
    requires Enabled(After(START, steps), next)
    requires Count(Do(After(START, steps), next).forces, n) > Count(After(START, steps).forces, n)
    ensures Count(After(START, steps).aborts, n) == 1
  {
    RunKeeps(START, steps);
    hide Do, Enabled, Inv;
    assert StopForcesOnly(START) && Inv(START) by { WinnerStart(); }
    StopOrders(START, steps);
    WinnerStep(After(START, steps), next, n);
  }

  lemma WinnerStart()
    ensures StopForcesOnly(START) && Inv(START)
  {
  }

  lemma WinnerStep(s: State, step: Step, n: Node)
    requires Inv(s) && StopForcesOnly(s) && s.stopper != PastAbort(false)
    requires !s.marks.abortSpoiled && (n in s.nodes || !s.marks.forceSpoiled)
    requires Enabled(s, step) && Count(Do(s, step).forces, n) > Count(s.forces, n)
    ensures Count(s.aborts, n) == 1
  {
    ForceStep(s, step, n);
    assert s.forced && s.marks.missed == {};
    hide Do, Enabled, Inv;
    ForcesTheAborted(s, step, n);
  }

  // And stop() does get there: it wins, its walk aborts the node, and its force walk forces it.
  lemma WinnerAbortsThenForces(n: Node) returns (steps: seq<Step>)
    ensures Runs(START, steps) && forall k :: 0 <= k < |steps| ==> !steps[k].ForceAll?
    ensures var s := After(START, steps);
            && s.stopper == PastAbort(true) && s.nodes == [n] && !s.marks.early
            && Count(s.aborts, n) == 1 && Count(s.forces, n) == 1
  {
    var s1, s2, s3 := TrackedAlone(n);
    var waiting := s3.(aborting := true, stopper := Waiting);
    var aborted := waiting.(walked := true, aborts := multiset{n});
    var steps' := ForceOnce(n, aborted.(stopper := PastAbort(true)));
    hide Runs, After;
    RunsOn(aborted, StopReturns, steps');
    steps := WalkOver(n, waiting, aborted, [StopReturns] + steps');
    RunsOn(s3, StopAborts, steps);
    steps := Prefixed(n, s1, s2, s3, [StopAborts] + steps);
  }

  lemma ForceOnce(n: Node, s: State) returns (steps: seq<Step>)
    requires s.nodes == [n] && s.cursor == None && s.stack == Bottom && s.walked && s.stopper == PastAbort(true)
    requires s.forces == multiset{} && !s.marks.early
    ensures steps == [StopForces, Continue] && Runs(s, steps)
    ensures var t := After(s, steps);
            && t.stopper == s.stopper && t.nodes == [n] && t.aborts == s.aborts && Count(t.forces, n) == 1
            && !t.marks.early
  {
    var forcing := s.(forced := true, cursor := Some(n), stack := On(Walk(Forcing, None), Bottom));
    var forced := forcing.(cursor := None, stack := On(Callback, forcing.stack), forces := multiset{n});
    assert Runs(forced, []) && After(forced, []) == forced;
    hide Runs, After;
    NextIs([n], 0);
    assert Do(forcing, Continue) == forced;
    RunsOn(forcing, Continue, []);
    RunsOn(s, StopForces, [Continue] + []);
    steps := [StopForces, Continue];
    assert steps == [StopForces] + ([Continue] + []);
  }

  lemma WalkOver(n: Node, s: State, t: State, rest: seq<Step>) returns (steps: seq<Step>)
    requires s.nodes == [n] && s.cursor == None && s.stack == Bottom && s.aborting && !s.walked && s.aborts == multiset{}
    requires t == s.(walked := true, aborts := multiset{n}) && Runs(t, rest)
    ensures steps == [BeginAbort, Continue, Return, Continue] + rest
    ensures Runs(s, steps) && After(s, steps) == After(t, rest)
  {
    hide Runs, After;
    NextIs([n], 0);
    var over := t.(stack := On(Walk(Aborting, None), Bottom));
    var inside := t.(stack := On(Callback, over.stack));
    var begun := s.(walked := true, cursor := Some(n), stack := over.stack);
    assert Do(begun, Continue) == inside;
    assert Do(over, Continue) == t;
    RunsOn(over, Continue, rest);
    RunsOn(inside, Return, [Continue] + rest);
    RunsOn(begun, Continue, [Return] + ([Continue] + rest));
    RunsOn(s, BeginAbort, [Continue] + ([Return] + ([Continue] + rest)));
    steps := [BeginAbort, Continue, Return, Continue] + rest;
    assert steps == [BeginAbort] + ([Continue] + ([Return] + ([Continue] + rest)));
  }

  // The race: another thread wins the exchange, stop() goes on at once, and its force walk reaches a
  // node that has had no abort().
  lemma LoserForcesFirst(n: Node) returns (steps: seq<Step>)
    ensures Runs(START, steps) && forall k :: 0 <= k < |steps| ==> !steps[k].ForceAll?
    ensures var s := After(START, steps);
            && s.aborting && !s.marks.abortSpoiled && !s.marks.forceSpoiled && s.nodes == [n]
            && Count(s.forces, n) == 1 && Count(s.aborts, n) == 0
  {
    var s1, s2, s3 := TrackedAlone(n);
    var s4 := Do(s3, Exchange);
    var s5 := Do(s4, StopAborts);
    var s6 := Do(s5, StopForces);
    var forcing: seq<Step> := [Continue] + [];
    RunsOn(s6, Continue, []);
    var racing := [StopForces] + forcing;
    RunsOn(s5, StopForces, forcing);
    RunsOn(s4, StopAborts, racing);
    RunsOn(s3, Exchange, [StopAborts] + racing);
    steps := Prefixed(n, s1, s2, s3, [Exchange] + ([StopAborts] + racing));
  }
}

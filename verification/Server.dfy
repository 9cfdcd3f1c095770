/**
 TcpServer's shutdown as one machine: any number of reactors, their accept loops as coroutine state
 machines, the sessions they launch with their tickets and leases, and the thread that calls stop().
 A loop runs one thing at a time (`busy`), so its steps interleave with other loops, with completions
 and with the stopping thread, but not with each other.
 */
module Server {

  // A wait: not completed yet, or completed and about to resume its coroutine.
  datatype Wait = Pending | Ready(ok: bool)

  // Where an accept loop is. The ones from Spawned on to Timing are suspended, the rest run on the loop.
  datatype Accept =
    | Spawned
    | Accepting(wait: Wait)                // co_await async_accept
    | Timing(wait: Wait)                   // retry(): co_await the retry timer
    | Starting                             // each of the next five reads `stopping` next
    | AtTop
    | Accepted
    | Retrying
    | Timed(ok: bool)
    | Admitting                            // try_enter is next
    | Ticketing(target: nat, leased: bool) // the ticket is constructed next
    | Launching(c: nat)                    // launch_session is next, with the ticket of connection c
    | Unwinding(c: nat)                    // it threw bad_alloc: the ticket is being destroyed
    | Ending                               // the coroutine has returned or thrown: finish() is next
    | Finished

  predicate OnLoop(p: Accept) {
    !p.Spawned? && !p.Accepting? && !p.Timing? && !p.Finished?
  }

  // Where a connection's ticket is.
  datatype Stage =
    | InHand                               // of the accept loop
    | Posted                               // in a launch posted to another reactor's loop
    | Queued                               // in the frame of run_session, not yet resumed
    | Entered(aborted: bool)               // run_session has tracked its control
    | Body                                 // the user's session has been called
    | Leaving                              // the ticket's destructor has begun
    | Reset                                // its lease is reset, session_finished is next
    | Over

  // `admitted`: it came in on a lease; `refunds`: how often that lease was reset.
  datatype Conn = Conn(reactor: nat, admitted: bool, stage: Stage, refunds: nat)

  datatype Busy = Nobody | Acceptor(a: nat) | Session(c: nat) | Walker

  datatype Stopper =
    | NotCalled
    | Aborting(r: nat)                     // abort_all() on reactor r
    | Signalling(a: nat)                   // stopping.store(true) on accept control a
    | PostingStop(a: nat)                  // asio::post of its stop_on_owner
    | Joining(a: nat)                      // control->wait()
    | Scanning(round: nat, r: nat, drained: bool, deadline: nat)
    | Forcing(r: nat)                      // force_all() on reactor r, between the two scans
    | Stopped(drained: bool)

  // Per reactor: abort_all() has been called, and force_all() has.
  datatype Asked = Asked(aborting: seq<bool>, forced: seq<bool>)

  datatype State = State(
    sessions: seq<int>,                    // per reactor
    walked: seq<bool>,
    busy: seq<Busy>,
    halted: seq<bool>,                     // somebody has stopped its io_context
    asked: Asked,
    home: seq<nat>,                        // per accept loop: the reactor it runs on
    accepts: seq<Accept>,
    stopping: seq<bool>,
    posted: seq<bool>,                     // stop_on_owner is queued
    closed: seq<bool>,                     // stop_on_owner has run
    conns: seq<Conn>,
    bounded: bool,                         // a connection limit is set
    maximum: nat,
    active: int,
    stopper: Stopper,
    grace: nat,
    now: nat,
    waited: nat)                           // time spent inside sessions_end_within

  datatype Step =
    | Resume(a: nat)
    | ReadStopping(a: nat, choice: Choice)
    | Admit(a: nat, target: nat)
    | Construct(a: nat)
    | Launch(a: nat, fails: bool)
    | Unwound(a: nat)
    | Finish(a: nat)
    | CompleteAccept(a: nat, ok: bool)
    | CompleteTimer(a: nat)
    | StopOnOwner(a: nat)
    | Hop(c: nat, fails: bool)
    | Enter(c: nat)
    | StartBody(c: nat)
    | Leave(c: nat)                        // the body ends or throws, or an unrun frame or handler is destroyed
    | Refund(c: nat)
    | Retire(c: nat)
    | Halt(r: nat)                         // a host calls io_context::stop() on a reactor's loop
    | AbortAll(r: nat)                     // somebody else calls abort_all()
    | WalkBegin(r: nat)
    | WalkEnd(r: nat)
    | Advance                              // the stopping thread
    | GiveUp                               // a wait of the scan reaches its deadline
    | Pass(time: nat)

  // What the code after a read of `stopping` that found it unset does.
  datatype Choice = GoOn | Pause | Fail

  predicate Shaped(s: State) {
    && |s.walked| == |s.sessions| && |s.busy| == |s.sessions| && |s.halted| == |s.sessions|
    && |s.asked.aborting| == |s.sessions| && |s.asked.forced| == |s.sessions|
    && |s.accepts| == |s.home| && |s.stopping| == |s.home| && |s.posted| == |s.home| && |s.closed| == |s.home|
    && (forall a :: 0 <= a < |s.home| ==> s.home[a] < |s.sessions|)
    && (forall c :: 0 <= c < |s.conns| ==> s.conns[c].reactor < |s.sessions|)
  }

  predicate IsAcceptStep(step: Step) {
    step.Resume? || step.ReadStopping? || step.Admit? || step.Construct? || step.Launch? || step.Unwound?
    || step.Finish? || step.CompleteAccept? || step.CompleteTimer? || step.StopOnOwner?
  }

  predicate IsConnStep(step: Step) {
    step.Hop? || step.Enter? || step.StartBody? || step.Leave? || step.Refund? || step.Retire?
  }

  // The loop of reactor r can take its next handler. One that is under way goes on on a stopped loop too.
  predicate Free(s: State, r: nat)
    requires Shaped(s) && r < |s.sessions|
  {
    s.busy[r] == Nobody && !s.halted[r]
  }

  predicate AcceptEnabled(s: State, step: Step)
    requires Shaped(s) && IsAcceptStep(step)
  {
    step.a < |s.accepts| &&
    var p := s.accepts[step.a];
    var free := Free(s, s.home[step.a]);
    match step
    case Resume(_) => free && (p.Spawned? || (p.Accepting? && p.wait.Ready?) || (p.Timing? && p.wait.Ready?))
    case ReadStopping(_, _) => p.Starting? || p.AtTop? || p.Accepted? || p.Retrying? || p.Timed?
    case Admit(_, target) => p.Admitting? && target < |s.sessions|
    case Construct(_) => p.Ticketing? && p.target < |s.sessions|
    case Launch(_, _) => p.Launching? && p.c < |s.conns|
    case Unwound(_) => p.Unwinding? && p.c < |s.conns| && s.conns[p.c].stage.Over?
    case Finish(_) => p.Ending?
    case CompleteAccept(_, _) => p == Accepting(Pending)
    case CompleteTimer(_) => p == Timing(Pending)
    case StopOnOwner(_) => s.posted[step.a] && free
  }

  predicate ConnEnabled(s: State, step: Step)
    requires Shaped(s) && IsConnStep(step)
  {
    step.c < |s.conns| &&
    var k := s.conns[step.c];
    match step
    case Hop(_, _) => k.stage.Posted? && Free(s, k.reactor)
    case Enter(_) => k.stage.Queued? && Free(s, k.reactor)
    case StartBody(_) => k.stage.Entered?
    case Leave(_) => k.stage.Body? || k.stage.Posted? || k.stage.Queued?
    case Refund(_) => k.stage.Leaving?
    case Retire(_) => k.stage.Reset?
  }

  predicate StopperEnabled(s: State)
    requires Shaped(s)
  {
    match s.stopper
    case NotCalled => true
    // abort_all() waits for the walk only if it won the exchange, so stop() may go on before it.
    case Aborting(_) => true
    case Signalling(_) => true
    case PostingStop(a) => a < |s.home|
    case Joining(a) => a >= |s.home| || s.accepts[a].Finished?
    case Scanning(_, r, _, _) => r >= |s.sessions| || s.sessions[r] == 0
    case Forcing(_) => true
    case Stopped(_) => false
  }

  predicate Enabled(s: State, step: Step) {
    Shaped(s) &&
    if IsAcceptStep(step) then AcceptEnabled(s, step)
    else if IsConnStep(step) then ConnEnabled(s, step)
    else match step
      case Halt(r) => r < |s.sessions|
      case AbortAll(r) => r < |s.sessions|
      // On a loop whose thread has left, the walk runs on the caller.
      case WalkBegin(r) => r < |s.sessions| && s.busy[r] == Nobody && s.asked.aborting[r] && !s.walked[r]
      case WalkEnd(r) => r < |s.sessions| && s.busy[r] == Walker
      case GiveUp => s.stopper.Scanning? && s.stopper.r < |s.sessions| && s.now >= s.stopper.deadline
      // A wait with a deadline returns no later than it.
      case Pass(time) => s.stopper.Scanning? ==> s.now + time <= s.stopper.deadline || time == 0
      case Advance => StopperEnabled(s)
      case _ => false
  }

  // ---------- The accept loop ----------

  function Put(s: State, a: nat, p: Accept, b: Busy): State
    requires Shaped(s) && a < |s.accepts|
  {
    s.(accepts := s.accepts[a := p], busy := s.busy[s.home[a] := b])
  }

  function DoReadStopping(s: State, a: nat, choice: Choice): State
    requires Shaped(s) && AcceptEnabled(s, ReadStopping(a, choice))
  {
    var me := Acceptor(a);
    if s.stopping[a] then Put(s, a, Ending, me)
    else
      match s.accepts[a]
      case Starting => Put(s, a, if choice.Fail? then Ending else AtTop, me)
      case AtTop => Put(s, a, Accepting(if s.closed[a] then Ready(false) else Pending), Nobody)
      case Accepted => Put(s, a, Admitting, me)
      case Retrying =>
        if choice.GoOn? then Put(s, a, AtTop, me)
        else if choice.Fail? then Put(s, a, Ending, me)
        else Put(s, a, Timing(Pending), Nobody)
      case Timed(ok) => Put(s, a, if ok then AtTop else Ending, me)
  }

  function DoAccept(s: State, step: Step): State
    requires Shaped(s) && IsAcceptStep(step) && AcceptEnabled(s, step)
  {
    var a := step.a;
    var p := s.accepts[a];
    var me := Acceptor(a);
    match step
    case Resume(_) =>
      Put(s, a, if p.Spawned? then Starting else if p.Timing? then Timed(p.wait.ok)
                else if p.wait.ok then Accepted else Retrying, me)
    case ReadStopping(_, choice) => DoReadStopping(s, a, choice)
    case Admit(_, target) =>
      if s.bounded && s.active >= s.maximum then Put(s, a, AtTop, me)
      else Put(s, a, Ticketing(target, s.bounded), me).(active := if s.bounded then s.active + 1 else s.active)
    case Construct(_) =>
      Put(s, a, Launching(|s.conns|), me).(
        conns := s.conns + [Conn(p.target, p.leased, InHand, 0)],
        sessions := s.sessions[p.target := s.sessions[p.target] + 1])
    case Launch(_, fails) =>
      var k := s.conns[p.c];
      if fails then Put(s, a, Unwinding(p.c), me).(conns := s.conns[p.c := k.(stage := Leaving)])
      else Put(s, a, AtTop, me).(conns := s.conns[p.c := k.(stage := if k.reactor == s.home[a] then Queued else Posted)])
    case Unwound(_) => Put(s, a, Retrying, me)
    case Finish(_) => Put(s, a, Finished, Nobody)
    case CompleteAccept(_, ok) => s.(accepts := s.accepts[a := Accepting(Ready(ok))])
    case CompleteTimer(_) => s.(accepts := s.accepts[a := Timing(Ready(true))])
    case StopOnOwner(_) =>
      // Closes the acceptor and cancels the timer: a pending wait completes with an error.
      s.(posted := s.posted[a := false], closed := s.closed[a := true],
         accepts := s.accepts[a := if p == Accepting(Pending) then Accepting(Ready(false))
                                   else if p == Timing(Pending) then Timing(Ready(false)) else p])
  }

  // ---------- Sessions ----------

  function At(s: State, c: nat, stage: Stage): State
    requires c < |s.conns|
  {
    s.(conns := s.conns[c := s.conns[c].(stage := stage)])
  }

  function DoConn(s: State, step: Step): State
    requires Shaped(s) && IsConnStep(step) && ConnEnabled(s, step)
  {
    var c := step.c;
    var k := s.conns[c];
    match step
    case Hop(_, fails) => At(s, c, if fails then Leaving else Queued)
    case Enter(_) => At(s, c, Entered(s.walked[k.reactor])).(busy := s.busy[k.reactor := Session(c)])
    case StartBody(_) => At(s, c, if k.stage.aborted then Leaving else Body).(busy := s.busy[k.reactor := Nobody])
    case Leave(_) => At(s, c, Leaving)
    case Refund(_) =>
      if k.admitted then
        s.(conns := s.conns[c := k.(stage := Reset, refunds := k.refunds + 1)], active := s.active - 1)
      else At(s, c, Reset)
    case Retire(_) => At(s, c, Over).(sessions := s.sessions[k.reactor := s.sessions[k.reactor] - 1])
  }

  // ---------- stop() ----------

  function Scan(s: State, round: nat): Stopper {
    Scanning(round, 0, true, s.now + s.grace)
  }

  function DoStopper(s: State): State
    requires Shaped(s) && StopperEnabled(s)
  {
    match s.stopper
    case NotCalled => s.(stopper := Aborting(0))
    case Aborting(r) =>
      if r < |s.sessions| then
        s.(asked := s.asked.(aborting := s.asked.aborting[r := true]), stopper := Aborting(r + 1))
      else s.(stopper := Signalling(0))
    case Signalling(a) =>
      if a < |s.home| then s.(stopping := s.stopping[a := true], stopper := PostingStop(a))
      else s.(stopper := Joining(0))
    case PostingStop(a) => s.(posted := s.posted[a := true], stopper := Signalling(a + 1))
    case Joining(a) => s.(stopper := if a < |s.home| then Joining(a + 1) else Scan(s, 1))
    case Scanning(round, r, drained, deadline) =>
      if r < |s.sessions| then s.(stopper := Scanning(round, r + 1, drained, deadline))
      else if drained || round != 1 then s.(stopper := Stopped(drained))
      else s.(stopper := Forcing(0))
    case Forcing(r) =>
      if r < |s.sessions| then
        s.(asked := s.asked.(forced := s.asked.forced[r := true]), stopper := Forcing(r + 1))
      else s.(stopper := Scan(s, 2))
  }

  function Do(s: State, step: Step): State
    requires Enabled(s, step)
  {
    if IsAcceptStep(step) then DoAccept(s, step)
    else if IsConnStep(step) then DoConn(s, step)
    else match step
      case Halt(r) => s.(halted := s.halted[r := true])
      case AbortAll(r) => s.(asked := s.asked.(aborting := s.asked.aborting[r := true]))
      case WalkBegin(r) => s.(walked := s.walked[r := true], busy := s.busy[r := Walker])
      case WalkEnd(r) => s.(busy := s.busy[r := Nobody])
      case GiveUp =>
        s.(stopper := s.stopper.(r := s.stopper.r + 1, drained := s.stopper.drained && s.sessions[s.stopper.r] == 0))
      case Pass(time) => s.(now := s.now + time, waited := if s.stopper.Scanning? then s.waited + time else s.waited)
      case Advance => DoStopper(s)
  }

  ghost predicate Init(s: State) {
    && Shaped(s) && s.conns == [] && s.active == 0 && s.stopper == NotCalled && s.waited == 0
    && (s.bounded ==> s.maximum > 0)
    && (forall a, b :: 0 <= a < b < |s.home| ==> s.home[a] != s.home[b])   // an accept loop has a reactor to itself
    && (forall r :: 0 <= r < |s.sessions| ==> s.sessions[r] == 0 && !s.walked[r] && !s.halted[r] && s.busy[r] == Nobody)
    && (forall r :: 0 <= r < |s.sessions| ==> !s.asked.aborting[r] && !s.asked.forced[r])
    && (forall a :: 0 <= a < |s.home| ==> s.accepts[a] == Spawned && !s.stopping[a] && !s.posted[a] && !s.closed[a])
  }

  ghost predicate Runs(s: State, steps: seq<Step>)
    decreases |steps|
  {
    steps == [] || (Enabled(s, steps[0]) && Runs(Do(s, steps[0]), steps[1..]))
  }

  ghost function After(s: State, steps: seq<Step>): State
    requires Runs(s, steps)
    decreases |steps|
  {
    if steps == [] then s else After(Do(s, steps[0]), steps[1..])
  }

  // ---------- Counting ----------

  // Connections whose ticket names reactor r.
  function Alive(conns: seq<Conn>, r: nat): nat {
    if conns == [] then 0
    else Alive(conns[..|conns| - 1], r) + (if Names(conns[|conns| - 1], r) then 1 else 0)
  }

  predicate Names(k: Conn, r: nat) {
    k.reactor == r && !k.stage.Over?
  }

  // Connections whose ticket holds a lease.
  function Leases(conns: seq<Conn>): nat {
    if conns == [] then 0
    else Leases(conns[..|conns| - 1]) + (if HoldsLease(conns[|conns| - 1]) then 1 else 0)
  }

  predicate HoldsLease(k: Conn) {
    k.admitted && !k.stage.Reset? && !k.stage.Over?
  }

  // Accept loops that hold a lease not yet in a ticket.
  function Loose(accepts: seq<Accept>): nat {
    if accepts == [] then 0 else (if HoldsLoose(accepts[0]) then 1 else 0) + Loose(accepts[1..])
  }

  predicate HoldsLoose(p: Accept) {
    p.Ticketing? && p.leased
  }

  lemma {:induction false} AliveUpdate(conns: seq<Conn>, c: nat, k: Conn, r: nat)
    requires c < |conns|
    ensures Alive(conns[c := k], r) == Alive(conns, r) - (if Names(conns[c], r) then 1 else 0) + (if Names(k, r) then 1 else 0)
  {
    var last := |conns| - 1;
    if c == last {
      assert conns[c := k][..last] == conns[..last];
    } else {
      assert conns[c := k][..last] == conns[..last][c := k];
      AliveUpdate(conns[..last], c, k, r);
    }
  }

  lemma {:induction false} LeasesUpdate(conns: seq<Conn>, c: nat, k: Conn)
    requires c < |conns|
    ensures Leases(conns[c := k]) == Leases(conns) - (if HoldsLease(conns[c]) then 1 else 0) + (if HoldsLease(k) then 1 else 0)
  {
    var last := |conns| - 1;
    if c == last {
      assert conns[c := k][..last] == conns[..last];
    } else {
      assert conns[c := k][..last] == conns[..last][c := k];
      LeasesUpdate(conns[..last], c, k);
    }
  }

  lemma {:induction false} LooseUpdate(accepts: seq<Accept>, a: nat, p: Accept)
    requires a < |accepts|
    ensures Loose(accepts[a := p]) == Loose(accepts) - (if HoldsLoose(accepts[a]) then 1 else 0) + (if HoldsLoose(p) then 1 else 0)
  {
    if a == 0 {
      assert accepts[a := p][1..] == accepts[1..];
    } else {
      assert accepts[a := p][1..] == accepts[1..][a - 1 := p];
      LooseUpdate(accepts[1..], a - 1, p);
    }
  }

  lemma Appended(conns: seq<Conn>, k: Conn, r: nat)
    ensures Alive(conns + [k], r) == Alive(conns, r) + (if Names(k, r) then 1 else 0)
    ensures Leases(conns + [k]) == Leases(conns) + (if HoldsLease(k) then 1 else 0)
  {
    assert (conns + [k])[..|conns|] == conns;
  }

  lemma {:induction false} AliveHas(conns: seq<Conn>, c: nat, r: nat)
    requires c < |conns| && Names(conns[c], r)
    ensures Alive(conns, r) > 0
  {
    var last := |conns| - 1;
    if c < last {
      AliveHas(conns[..last], c, r);
    }
  }

  lemma {:induction false} NoLeases(conns: seq<Conn>)
    requires forall c :: 0 <= c < |conns| ==> !HoldsLease(conns[c])
    ensures Leases(conns) == 0
  {
    if conns != [] {
      NoLeases(conns[..|conns| - 1]);
    }
  }

  lemma {:induction false} NoLoose(accepts: seq<Accept>)
    requires forall a :: 0 <= a < |accepts| ==> !HoldsLoose(accepts[a])
    ensures Loose(accepts) == 0
  {
    if accepts != [] {
      NoLoose(accepts[1..]);
    }
  }

  // ---------- The invariant ----------

  ghost predicate CountInv(s: State) {
    && (forall r :: 0 <= r < |s.sessions| ==> s.sessions[r] == Alive(s.conns, r))
    && s.active == Leases(s.conns) + Loose(s.accepts)
    && (s.bounded ==> s.active <= s.maximum)
  }

  // A lease is refunded once, when the ticket's destructor resets it.
  ghost predicate RefundInv(s: State) {
    forall c :: 0 <= c < |s.conns| ==>
      s.conns[c].refunds == if s.conns[c].admitted && (s.conns[c].stage.Reset? || s.conns[c].stage.Over?) then 1 else 0
  }

  // What runs on a loop has the loop to itself; a session between track() and its body saw walked_.
  ghost predicate LoopInv(s: State)
    requires Shaped(s)
  {
    && (forall a :: 0 <= a < |s.accepts| && OnLoop(s.accepts[a]) ==> s.busy[s.home[a]] == Acceptor(a))
    && (forall c :: 0 <= c < |s.conns| && s.conns[c].stage.Entered? ==>
          s.busy[s.conns[c].reactor] == Session(c) && s.conns[c].stage.aborted == s.walked[s.conns[c].reactor])
  }

  // The connections accept loops work on are theirs alone.
  ghost predicate HandInv(s: State) {
    && (forall a :: 0 <= a < |s.accepts| && s.accepts[a].Launching? ==>
          s.accepts[a].c < |s.conns| && s.conns[s.accepts[a].c].stage.InHand?)
    && (forall a, b :: 0 <= a < b < |s.accepts| && s.accepts[a].Launching? && s.accepts[b].Launching? ==>
          s.accepts[a].c != s.accepts[b].c)
  }

  // Where an accept loop can be once stop_on_owner has run.
  predicate Retiring(p: Accept) {
    match p
    case Spawned => true
    case Starting => true
    case Accepted => true
    case Retrying => true
    case Timed(_) => true
    case Ending => true
    case Finished => true
    case Accepting(w) => w.Ready?
    case Timing(w) => w.Ready?
    case _ => false
  }

  ghost predicate BarrierInv(s: State)
    requires Shaped(s)
  {
    && (forall a :: 0 <= a < |s.accepts| && (s.posted[a] || s.closed[a]) ==> s.stopping[a])
    && (forall a :: 0 <= a < |s.accepts| && s.closed[a] ==> Retiring(s.accepts[a]))
  }

  // How far stop() has got.
  ghost predicate StopperInv(s: State)
    requires Shaped(s)
  {
    match s.stopper
    case Signalling(n) => n <= |s.home| && forall a :: 0 <= a < n ==> s.posted[a] || s.closed[a]
    case PostingStop(n) => n < |s.home| && s.stopping[n] && forall a :: 0 <= a < n ==> s.posted[a] || s.closed[a]
    case Joining(n) =>
      n <= |s.home| && (forall a :: 0 <= a < |s.home| ==> s.posted[a] || s.closed[a])
      && forall a :: 0 <= a < n ==> s.accepts[a].Finished?
    case Scanning(_, _, _, _) => AllFinished(s)
    case Forcing(_) => AllFinished(s)
    case Stopped(_) => AllFinished(s)
    case _ => true
  }

  ghost predicate AllFinished(s: State)
    requires Shaped(s)
  {
    forall a :: 0 <= a < |s.accepts| ==> s.accepts[a].Finished?
  }

  // What a scan has found drained stays drained.
  ghost predicate ScanInv(s: State) {
    match s.stopper
    case Scanning(_, n, drained, _) =>
      n <= |s.sessions| && (drained ==> forall r :: 0 <= r < n ==> s.sessions[r] == 0)
    case Stopped(drained) => drained ==> forall r :: 0 <= r < |s.sessions| ==> s.sessions[r] == 0
    case _ => true
  }

  // A scan that is not drained has run to its deadline.
  ghost predicate TimeInv(s: State) {
    match s.stopper
    case Scanning(round, _, drained, deadline) =>
      && (round == 1 || round == 2) && s.now <= deadline && (!drained ==> s.now == deadline)
      && s.waited + (deadline - s.now) == if round == 1 then s.grace else 2 * s.grace
    case Forcing(_) => s.waited == s.grace
    case Stopped(drained) => s.waited <= 2 * s.grace && (!drained ==> s.waited == 2 * s.grace)
    case _ => s.waited == 0
  }

  // Which reactors have been asked to abort and to force, by how far stop() has got.
  ghost predicate AskInv(s: State)
    requires Shaped(s)
  {
    match s.stopper
    case NotCalled => NoneForced(s)
    case Aborting(n) => n <= |s.sessions| && (forall r :: 0 <= r < n ==> s.asked.aborting[r]) && NoneForced(s)
    case Forcing(n) => n <= |s.sessions| && AllAborting(s) && forall r :: 0 <= r < |s.sessions| ==> s.asked.forced[r] == (r < n)
    case Scanning(round, _, _, _) => AllAborting(s) && (round == 1 ==> NoneForced(s)) && (round != 1 ==> AllForced(s))
    case Stopped(drained) => AllAborting(s) && (NoneForced(s) || AllForced(s)) && (!drained ==> AllForced(s))
    case _ => AllAborting(s) && NoneForced(s)
  }

  ghost predicate AllAborting(s: State)
    requires Shaped(s)
  {
    forall r :: 0 <= r < |s.sessions| ==> s.asked.aborting[r]
  }

  ghost predicate AllForced(s: State)
    requires Shaped(s)
  {
    forall r :: 0 <= r < |s.sessions| ==> s.asked.forced[r]
  }

  ghost predicate NoneForced(s: State)
    requires Shaped(s)
  {
    forall r :: 0 <= r < |s.sessions| ==> !s.asked.forced[r]
  }

  ghost predicate Inv(s: State) {
    FlowInv(s) && CountInv(s) && RefundInv(s) && ScanInv(s) && TimeInv(s) && AskInv(s)
  }

  // ---------- Every step keeps it ----------

  // The part of the invariant about who is where.
  ghost predicate FlowInv(s: State) {
    Shaped(s) && LoopInv(s) && HandInv(s) && BarrierInv(s) && StopperInv(s)
  }

  // The parts of the state that accept and connection steps leave alone.
  predicate SameServer(s: State, t: State) {
    && |t.sessions| == |s.sessions| && t.walked == s.walked && t.halted == s.halted && t.asked == s.asked && t.home == s.home && t.stopping == s.stopping
    && t.bounded == s.bounded && t.maximum == s.maximum && t.stopper == s.stopper
    && t.grace == s.grace && t.now == s.now && t.waited == s.waited
  }

  // The steps of an accept loop that touch only its own position and its loop, and perhaps `active`.
  predicate Light(step: Step) {
    step.Resume? || step.ReadStopping? || step.Admit? || step.Unwound? || step.Finish? || step.CompleteAccept?
    || step.CompleteTimer?
  }

  // What such a step may do to them.
  ghost predicate LightMove(s: State, t: State, a: nat)
    requires Shaped(s) && a < |s.accepts|
  {
    && |t.accepts| == |s.accepts| && |t.busy| == |s.busy|
    && var p, b, h, was := t.accepts[a], t.busy[s.home[a]], s.home[a], s.accepts[a];
    && t.accepts == s.accepts[a := p] && t.busy == s.busy[h := b]
    && t.posted == s.posted && t.closed == s.closed && t.conns == s.conns && t.sessions == s.sessions
    && (OnLoop(p) ==> b == Acceptor(a))
    && (b == s.busy[h] || s.busy[h] == Nobody || s.busy[h] == Acceptor(a))
    && !was.Finished? && !was.Launching? && !p.Launching? && !HoldsLoose(was)
    && (s.stopping[a] && Retiring(was) ==> Retiring(p))
  }

  lemma LightStep(s: State, step: Step)
    requires Enabled(s, step) && Light(step) && LoopInv(s)
    ensures step.a < |s.accepts| && SameServer(s, Do(s, step)) && LightMove(s, Do(s, step), step.a)
    ensures !step.Admit? ==> Do(s, step).active == s.active && !HoldsLoose(Do(s, step).accepts[step.a])
  {
    if step.ReadStopping? {
      ReadStep(s, step.a, step.choice);
    } else if step.CompleteAccept? || step.CompleteTimer? {
      assert s.busy[s.home[step.a] := s.busy[s.home[step.a]]] == s.busy;
    }
  }

  lemma ReadStep(s: State, a: nat, choice: Choice)
    requires Enabled(s, ReadStopping(a, choice)) && LoopInv(s)
    ensures var t := Do(s, ReadStopping(a, choice));
            SameServer(s, t) && LightMove(s, t, a) && t.active == s.active && !HoldsLoose(t.accepts[a])
  {
  }

  lemma FlowKeepsLight(s: State, t: State, a: nat)
    requires FlowInv(s) && a < |s.accepts| && SameServer(s, t) && LightMove(s, t, a)
    ensures FlowInv(t)
  {
  }

  lemma FlowKeepsConstruct(s: State, a: nat)
    requires FlowInv(s) && Enabled(s, Construct(a))
    ensures FlowInv(Do(s, Construct(a)))
  {
    var t := Do(s, Construct(a));
    var n := |s.conns|;
    assert t == s.(accepts := s.accepts[a := Launching(n)], busy := s.busy[s.home[a] := Acceptor(a)],
                   conns := s.conns + [t.conns[n]], sessions := t.sessions);
    assert |t.sessions| == |s.sessions| && t.conns[n].reactor < |s.sessions| && t.conns[n].stage == InHand;
    assert s.busy[s.home[a]] == Acceptor(a) && !s.closed[a] && !s.accepts[a].Finished?;
    hide Do, Enabled;
  }

  lemma FlowKeepsLaunch(s: State, a: nat, fails: bool)
    requires FlowInv(s) && Enabled(s, Launch(a, fails))
    ensures FlowInv(Do(s, Launch(a, fails)))
  {
    var t := Do(s, Launch(a, fails));
    var c, p := s.accepts[a].c, t.accepts[a];
    assert t == s.(accepts := s.accepts[a := p], busy := s.busy[s.home[a] := Acceptor(a)],
                   conns := s.conns[c := t.conns[c]]);
    assert s.busy[s.home[a]] == Acceptor(a) && s.conns[c].stage.InHand? && !s.closed[a];
    assert OnLoop(p) && !p.Launching? && !p.Finished?;
    assert t.conns[c].reactor == s.conns[c].reactor && !t.conns[c].stage.InHand? && !t.conns[c].stage.Entered?;
    hide Do, Enabled;
  }

  lemma FlowKeepsStopOnOwner(s: State, a: nat)
    requires FlowInv(s) && Enabled(s, StopOnOwner(a))
    ensures FlowInv(Do(s, StopOnOwner(a)))
  {
    var t := Do(s, StopOnOwner(a));
    var p := t.accepts[a];
    assert t == s.(posted := s.posted[a := false], closed := s.closed[a := true], accepts := s.accepts[a := p]);
    assert s.stopping[a] && !OnLoop(s.accepts[a]);
    assert Retiring(p) && !OnLoop(p) && (s.accepts[a].Finished? ==> p.Finished?);
    hide Do, Enabled;
  }

  // What a step of a connection may do to it and to its loop.
  ghost predicate ConnMove(s: State, t: State, c: nat)
    requires Shaped(s) && c < |s.conns|
  {
    && |t.conns| == |s.conns| && |t.busy| == |s.busy|
    && t.accepts == s.accepts && t.posted == s.posted && t.closed == s.closed
    && var k, was := t.conns[c], s.conns[c];
    && t.conns == s.conns[c := k] && k.reactor == was.reactor && !was.stage.InHand? && !k.stage.InHand?
    && var b, r := t.busy[was.reactor], was.reactor;
    && t.busy == s.busy[r := b]
    && (b == s.busy[r] || s.busy[r] == Nobody || s.busy[r] == Session(c))
    && (k.stage.Entered? ==> b == Session(c) && k.stage.aborted == s.walked[r])
  }

  lemma ConnStep(s: State, step: Step)
    requires Enabled(s, step) && IsConnStep(step) && LoopInv(s)
    ensures step.c < |s.conns| && SameServer(s, Do(s, step)) && ConnMove(s, Do(s, step), step.c)
  {
    var r := s.conns[step.c].reactor;
    assert s.busy[r := s.busy[r]] == s.busy;
  }

  lemma FlowKeepsConn(s: State, t: State, c: nat)
    requires FlowInv(s) && c < |s.conns| && SameServer(s, t) && ConnMove(s, t, c)
    ensures FlowInv(t)
  {
  }

  lemma FlowKeepsWalk(s: State, step: Step)
    requires FlowInv(s) && Enabled(s, step) && (step.WalkBegin? || step.WalkEnd?)
    ensures FlowInv(Do(s, step))
  {
  }

  // stop() only moves itself, and raises `stopping` and `posted`.
  lemma StopFrame(s: State)
    requires Enabled(s, Advance)
    ensures var t := Do(s, Advance);
            && t == s.(stopper := t.stopper, stopping := t.stopping, posted := t.posted, asked := t.asked)
            && |t.asked.aborting| == |s.asked.aborting| && |t.asked.forced| == |s.asked.forced|
            && |t.stopping| == |s.stopping| && |t.posted| == |s.posted|
            && (forall a :: 0 <= a < |s.stopping| && s.stopping[a] ==> t.stopping[a])
            && (forall a :: 0 <= a < |s.posted| && t.posted[a] ==> s.posted[a] || s.stopper == PostingStop(a))
  {
  }

  lemma FlowKeepsStop(s: State)
    requires FlowInv(s) && Enabled(s, Advance)
    ensures FlowInv(Do(s, Advance))
  {
    hide Do, Enabled;
    var t := Do(s, Advance);
    StopFrame(s);
    assert Shaped(t) && LoopInv(t) && HandInv(t) && BarrierInv(t);
    if s.stopper.Signalling? || s.stopper.PostingStop? {
      StopperSignals(s);
    } else {
      StopperMoves(s);
    }
  }

  lemma StopperSignals(s: State)
    requires Shaped(s) && StopperInv(s) && Enabled(s, Advance) && (s.stopper.Signalling? || s.stopper.PostingStop?)
    requires Shaped(Do(s, Advance))
    ensures StopperInv(Do(s, Advance))
  {
  }

  lemma StopperMoves(s: State)
    requires Shaped(s) && StopperInv(s) && Enabled(s, Advance) && !s.stopper.Signalling? && !s.stopper.PostingStop?
    requires Shaped(Do(s, Advance))
    ensures StopperInv(Do(s, Advance))
  {
  }

  lemma FlowKeepsClock(s: State, step: Step)
    requires FlowInv(s) && Enabled(s, step) && (step.GiveUp? || step.Pass? || step.Halt? || step.AbortAll?)
    ensures FlowInv(Do(s, step))
  {
    var t := Do(s, step);
    assert t == s.(stopper := t.stopper, now := t.now, waited := t.waited, halted := t.halted, asked := t.asked);
    assert |t.halted| == |s.halted| && |t.asked.aborting| == |s.asked.aborting| && |t.asked.forced| == |s.asked.forced|;
    assert t.stopper == s.stopper || (s.stopper.Scanning? && t.stopper.Scanning?);
    hide Do, Enabled;
  }

  // ---------- The counts ----------

  lemma CountKeepsLight(s: State, step: Step)
    requires FlowInv(s) && CountInv(s) && RefundInv(s) && Enabled(s, step) && Light(step)
    ensures CountInv(Do(s, step)) && RefundInv(Do(s, step))
  {
    hide Alive, Leases, Loose, Shaped, HandInv, BarrierInv, StopperInv;
    var t := Do(s, step);
    LightStep(s, step);
    LooseUpdate(s.accepts, step.a, t.accepts[step.a]);
  }

  lemma CountKeepsConstruct(s: State, a: nat)
    requires CountInv(s) && RefundInv(s) && Enabled(s, Construct(a))
    ensures CountInv(Do(s, Construct(a))) && RefundInv(Do(s, Construct(a)))
  {
    hide Alive, Leases, Loose;
    var t := Do(s, Construct(a));
    LooseUpdate(s.accepts, a, t.accepts[a]);
    forall r | 0 <= r < |s.sessions| ensures t.sessions[r] == Alive(t.conns, r) {
      Appended(s.conns, t.conns[|s.conns|], r);
    }
    Appended(s.conns, t.conns[|s.conns|], 0);
  }

  lemma CountKeepsLaunch(s: State, a: nat, fails: bool)
    requires HandInv(s) && CountInv(s) && RefundInv(s) && Enabled(s, Launch(a, fails))
    ensures CountInv(Do(s, Launch(a, fails))) && RefundInv(Do(s, Launch(a, fails)))
  {
    hide Alive, Leases, Loose;
    var t := Do(s, Launch(a, fails));
    var c := s.accepts[a].c;
    LooseUpdate(s.accepts, a, t.accepts[a]);
    LeasesUpdate(s.conns, c, t.conns[c]);
    forall r | 0 <= r < |s.sessions| ensures t.sessions[r] == Alive(t.conns, r) {
      AliveUpdate(s.conns, c, t.conns[c], r);
    }
  }

  lemma CountKeepsStopOnOwner(s: State, a: nat)
    requires CountInv(s) && RefundInv(s) && Enabled(s, StopOnOwner(a))
    ensures CountInv(Do(s, StopOnOwner(a))) && RefundInv(Do(s, StopOnOwner(a)))
  {
    hide Alive, Leases, Loose;
    LooseUpdate(s.accepts, a, Do(s, StopOnOwner(a)).accepts[a]);
  }

  lemma CountKeepsConn(s: State, step: Step)
    requires CountInv(s) && RefundInv(s) && Enabled(s, step) && IsConnStep(step)
    ensures CountInv(Do(s, step)) && RefundInv(Do(s, step))
  {
    hide Alive, Leases, Loose;
    var t := Do(s, step);
    LeasesUpdate(s.conns, step.c, t.conns[step.c]);
    ConnCounts(s, step);
    forall r | 0 <= r < |s.sessions| ensures t.sessions[r] == Alive(t.conns, r) {
      AliveUpdate(s.conns, step.c, t.conns[step.c], r);
    }
    hide Do, Enabled;
  }

  // What a connection's step does to the counts is what it does to its own ticket and lease.
  lemma ConnCounts(s: State, step: Step)
    requires Enabled(s, step) && IsConnStep(step)
    ensures var t, c := Do(s, step), step.c;
            && t.conns == s.conns[c := t.conns[c]] && t.accepts == s.accepts && |t.sessions| == |s.sessions|
            && (forall r :: 0 <= r < |s.sessions| ==>
                  t.sessions[r] ==
                    s.sessions[r] - (if Names(s.conns[c], r) then 1 else 0) + (if Names(t.conns[c], r) then 1 else 0))
            && t.active ==
                 s.active - (if HoldsLease(s.conns[c]) then 1 else 0) + (if HoldsLease(t.conns[c]) then 1 else 0)
  {
  }

  lemma RestFrame(s: State, step: Step)
    requires Enabled(s, step) && !IsAcceptStep(step) && !IsConnStep(step)
    ensures var t := Do(s, step);
            && t.conns == s.conns && t.accepts == s.accepts && t.sessions == s.sessions && t.active == s.active
            && t.bounded == s.bounded && t.maximum == s.maximum
  {
  }

  lemma CountKeepsRest(s: State, step: Step)
    requires CountInv(s) && RefundInv(s) && Enabled(s, step) && !IsAcceptStep(step) && !IsConnStep(step)
    ensures CountInv(Do(s, step)) && RefundInv(Do(s, step))
  {
    hide Do, Enabled;
    RestFrame(s, step);
  }

  // ---------- The scan and the clock ----------

  lemma ScanKeeps(s: State, step: Step)
    requires Enabled(s, step) && CountInv(s) && StopperInv(s) && ScanInv(s)
    ensures ScanInv(Do(s, step))
  {
    if IsConnStep(step) {
      ScanKeepsConn(s, step);
    } else if IsAcceptStep(step) {
      assert Do(s, step).stopper == s.stopper && (!step.Construct? ==> Do(s, step).sessions == s.sessions);
    }
  }

  lemma ScanKeepsConn(s: State, step: Step)
    requires Enabled(s, step) && IsConnStep(step) && CountInv(s) && ScanInv(s)
    ensures ScanInv(Do(s, step))
  {
    if step.Retire? {
      AliveHas(s.conns, step.c, s.conns[step.c].reactor);
    }
  }

  lemma TimeKeeps(s: State, step: Step)
    requires Enabled(s, step) && TimeInv(s)
    ensures TimeInv(Do(s, step))
  {
    if step.Advance? {
      TimeKeepsStop(s);
    } else if IsAcceptStep(step) || IsConnStep(step) {
      assert Do(s, step).stopper == s.stopper && Do(s, step).now == s.now && Do(s, step).waited == s.waited
        && Do(s, step).grace == s.grace;
    }
  }

  lemma TimeKeepsStop(s: State)
    requires Enabled(s, Advance) && TimeInv(s)
    ensures TimeInv(Do(s, Advance))
  {
  }

  lemma AskKeeps(s: State, step: Step)
    requires Enabled(s, step) && AskInv(s) && TimeInv(s) && Shaped(Do(s, step))
    ensures AskInv(Do(s, step))
  {
    if step.Advance? {
      AskKeepsStop(s);
    } else if !step.AbortAll? && !step.GiveUp? {
      AskFrame(s, step);
      hide Do, Enabled;
    }
  }

  lemma AskKeepsStop(s: State)
    requires Enabled(s, Advance) && AskInv(s) && TimeInv(s) && Shaped(Do(s, Advance))
    ensures AskInv(Do(s, Advance))
  {
  }

  lemma AskFrame(s: State, step: Step)
    requires Enabled(s, step) && !step.Advance? && !step.AbortAll? && !step.GiveUp?
    ensures Do(s, step).asked == s.asked && Do(s, step).stopper == s.stopper && |Do(s, step).sessions| == |s.sessions|
  {
  }

  lemma StepKeeps(s: State, step: Step)
    requires Inv(s) && Enabled(s, step)
    ensures Inv(Do(s, step))
  {
    hide Do, Enabled, CountInv, RefundInv, ScanInv, TimeInv, AskInv, LoopInv, HandInv, BarrierInv, StopperInv;
    ScanKeeps(s, step);
    TimeKeeps(s, step);
    if Light(step) {
      LightStep(s, step);
      FlowKeepsLight(s, Do(s, step), step.a);
      CountKeepsLight(s, step);
    } else if step.Construct? {
      FlowKeepsConstruct(s, step.a);
      CountKeepsConstruct(s, step.a);
    } else if step.Launch? {
      FlowKeepsLaunch(s, step.a, step.fails);
      CountKeepsLaunch(s, step.a, step.fails);
    } else if step.StopOnOwner? {
      FlowKeepsStopOnOwner(s, step.a);
      CountKeepsStopOnOwner(s, step.a);
    } else if IsConnStep(step) {
      ConnStep(s, step);
      FlowKeepsConn(s, Do(s, step), step.c);
      CountKeepsConn(s, step);
    } else {
      CountKeepsRest(s, step);
      if step.Advance? {
        FlowKeepsStop(s);
      } else if step.WalkBegin? || step.WalkEnd? {
        FlowKeepsWalk(s, step);
      } else {
        FlowKeepsClock(s, step);
      }
    }
    AskKeeps(s, step);
  }

  lemma {:induction false} RunKeeps(s: State, steps: seq<Step>)
    requires Inv(s) && Runs(s, steps)
    ensures Inv(After(s, steps))
    decreases |steps|
  {
    if steps != [] {
      StepKeeps(s, steps[0]);
      RunKeeps(Do(s, steps[0]), steps[1..]);
    }
  }

  lemma Reachable(s: State, steps: seq<Step>)
    requires Init(s) && Runs(s, steps)
    ensures Inv(After(s, steps))
  {
    NoLoose(s.accepts);
    assert Inv(s);
    RunKeeps(s, steps);
  }

  // ---------- Main results ----------

  // Conservation over every path: refusal, hop, bad_alloc, normal end, throw, destruction unrun. Each
  // reactor's session count is the number of tickets that name it, active is the number of leases held,
  // and a connection's lease is refunded once, before its session leaves the count.
  lemma Conservation(s: State, steps: seq<Step>, r: nat, c: nat)
    requires Init(s) && Runs(s, steps)
    ensures var t := After(s, steps);
            && (r < |t.sessions| ==> t.sessions[r] == Alive(t.conns, r))
            && t.active == Leases(t.conns) + Loose(t.accepts)
            && (t.bounded ==> t.active <= t.maximum)
            && (c < |t.conns| ==>
                  t.conns[c].refunds ==
                    if t.conns[c].admitted && (t.conns[c].stage.Reset? || t.conns[c].stage.Over?) then 1 else 0)
  {
    Reachable(s, steps);
  }

  // No user session body starts on a reactor after its abort walk has begun, in any order of launch,
  // hop and walk: a ticket that was still queued then is aborted when it is tracked and ends unserved.
  lemma NoLateBody(s: State, steps: seq<Step>, next: Step)
    requires Init(s) && Runs(s, steps) && Enabled(After(s, steps), next) && next.StartBody?
    ensures var t := After(s, steps);
            var r := t.conns[next.c].reactor;
            Do(t, next).conns[next.c].stage == (if t.walked[r] then Leaving else Body)
  {
    Reachable(s, steps);
  }

  // When stop() finds every session ended within the grace, although it looked at the reactors one
  // after another, all of them are drained at the same time: no ticket is alive, no lease is held, and
  // every admitted connection has been refunded.
  lemma DrainedAtOnce(s: State, steps: seq<Step>)
    requires Init(s) && Runs(s, steps)
    requires var k := After(s, steps).stopper;
             k == Stopped(true) || (k.Scanning? && k.drained && k.r == |After(s, steps).sessions|)
    ensures var t := After(s, steps);
            && (forall r :: 0 <= r < |t.sessions| ==> t.sessions[r] == 0)
            && (forall c :: 0 <= c < |t.conns| ==> t.conns[c].stage.Over?)
            && t.active == 0
  {
    Reachable(s, steps);
    var t := After(s, steps);
    forall c | 0 <= c < |t.conns| ensures t.conns[c].stage.Over? {
      if !t.conns[c].stage.Over? {
        AliveHas(t.conns, c, t.conns[c].reactor);
      }
    }
    NoLeases(t.conns);
    NoLoose(t.accepts);
  }

  // stop() spends at most two graces waiting for sessions, for any number of reactors, and gives up on
  // sessions only after two full ones.
  lemma TwoGracesAtMost(s: State, steps: seq<Step>)
    requires Init(s) && Runs(s, steps)
    ensures After(s, steps).waited <= 2 * After(s, steps).grace
    ensures After(s, steps).stopper == Stopped(false) ==> After(s, steps).waited == 2 * After(s, steps).grace
  {
    hide Do, Enabled, FlowInv, CountInv, Init, AskInv;
    Reachable(s, steps);
  }
}

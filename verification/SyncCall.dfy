/**
 The cross-thread call Reactor::on_loop_sync. Any number of callers, any number of loop threads
 and the handlers the callers post race to run each borrowed closure. A step is one atomic
 operation, one mutex-protected block, or one end of a closure's run.

 The class SyncSlot holds the members the mutex protects, with a method for each block that decides
 something; the machine below it interleaves all the blocks.
 */
module SyncCall {

  // ---------- The members under sync_mutex_, and the blocks that touch them ----------

  // `calls` is sync_calls_, `open` the call not yet taken (0: none), `finished` the last one done.
  datatype Slot = Slot(loops: int, calls: nat, open: nat, finished: nat) {
    // The condition the caller of call `id` waits for.
    predicate Ready(id: nat) {
      finished == id || (open == id && loops == 0)
    }
  }

  datatype Verdict = ReturnNow | RunHere | Sleep

  function TakeSlot(s: Slot, id: nat): Slot {
    if s.open == id then s.(open := 0) else s
  }

  function Decision(s: Slot, id: nat): Verdict {
    if s.finished == id then ReturnNow else if s.open == id && s.loops == 0 then RunHere else Sleep
  }

  function DecideSlot(s: Slot, id: nat): Slot {
    if Decision(s, id) == RunHere then s.(open := 0) else s
  }

  class SyncSlot {
    var loops: int
    var calls: nat
    var open: nat
    var finished: nat

    ghost function View(): Slot
      reads this
    {
      Slot(loops, calls, open, finished)
    }

    constructor ()
      ensures View() == Slot(0, 0, 0, 0)
    {
      loops, calls, open, finished := 0, 0, 0, 0;
    }

    // The posted handler's first block: takes the call, unless its caller already took it.
    method Take(id: nat) returns (taken: bool)
      modifies this
      ensures View() == TakeSlot(old(View()), id)
      ensures taken <==> old(open) == id
    {
      if open != id {
        return false;
      }
      open := 0;
      return true;
    }

    // The caller's block: one evaluation of the wait condition and what follows it.
    method Decide(id: nat) returns (verdict: Verdict)
      modifies this
      ensures View() == DecideSlot(old(View()), id)
      ensures verdict == Decision(old(View()), id)
      ensures verdict.Sleep? <==> !old(View()).Ready(id)
    {
      if !(finished == id || (open == id && loops == 0)) {
        return Sleep;
      }
      if finished == id {
        return ReturnNow;
      }
      open := 0;
      return RunHere;
    }
  }

  // ---------- The machine ----------

  datatype Handler = Handler(id: nat, caller: nat)

  datatype Caller =
    | Fresh                     // has not called
    | Locking                   // saw a claimed loop, waits for sync_call_
    | Numbered(id: nat)         // holds sync_call_ from here to its return
    | Opened(id: nat)
    | Checking(id: nat)         // about to evaluate its wait condition
    | Asleep(id: nat)           // in the condition variable
    | Running(locked: bool)     // runs the closure itself
    | Returned
    | Threw(ran: bool)          // left by an exception: from the closure it ran, or from post

  datatype Worker =
    | Absent                    // not claimed
    | Idle                      // claimed, between handlers
    | Popped(h: Handler)
    | InCall(h: Handler)        // runs the closure
    | AfterCall(h: Handler)     // the closure returned, sync_done_ is not yet set
    | Owing                     // has released the loop, its notify_all is still due

  datatype State = State(
    slot: Slot,
    lock: int,                  // who holds sync_call_, -1 when free
    stopped: bool,              // io_context::stop: no handler is popped any more
    queue: seq<Handler>,
    callers: seq<Caller>,
    workers: seq<Worker>,
    begun: seq<nat>,            // per call: how often its closure was entered
    ended: seq<nat>,            // per call: how often its closure returned
    broken: set<nat>)           // calls whose closure threw on a loop thread

  datatype Step =
    | EnterInline(c: nat, onLoop: bool)
    | Enter(c: nat)
    | Lock(c: nat)
    | Open(c: nat)
    | Post(c: nat)
    | PostFails(c: nat)
    | Check(c: nat)
    | WakeSpurious(c: nat)
    | EndSelf(c: nat, throws: bool)
    | Claim(w: nat)
    | StopLoop
    | Pop(w: nat)
    | Take(w: nat)
    | EndCall(w: nat, throws: bool)
    | Done(w: nat)
    | Leave(w: nat)
    | Notify(w: nat)

  function NotifyAll(callers: seq<Caller>): (woken: seq<Caller>)
    ensures |woken| == |callers|
    ensures forall c :: 0 <= c < |callers| ==>
              woken[c] == if callers[c].Asleep? then Checking(callers[c].id) else callers[c]
  {
    seq(|callers|, c requires 0 <= c < |callers| =>
      if callers[c].Asleep? then Checking(callers[c].id) else callers[c])
  }

  predicate Shaped(s: State) {
    |s.begun| == |s.callers| && |s.ended| == |s.callers|
  }

  predicate Enabled(s: State, step: Step) {
    Shaped(s) &&
    match step
    case EnterInline(c, onLoop) => c < |s.callers| && s.callers[c].Fresh? && (s.slot.loops == 0 || onLoop)
    case Enter(c) => c < |s.callers| && s.callers[c].Fresh? && s.slot.loops != 0
    case Lock(c) => c < |s.callers| && s.callers[c].Locking? && s.lock == -1
    case Open(c) => c < |s.callers| && s.callers[c].Numbered?
    case Post(c) => c < |s.callers| && s.callers[c].Opened?
    case PostFails(c) => c < |s.callers| && s.callers[c].Opened?
    case Check(c) => c < |s.callers| && s.callers[c].Checking?
    case WakeSpurious(c) => c < |s.callers| && s.callers[c].Asleep?
    case EndSelf(c, _) => c < |s.callers| && s.callers[c].Running?
    case Claim(w) => w < |s.workers| && s.workers[w].Absent?
    case StopLoop => !s.stopped
    case Pop(w) => w < |s.workers| && s.workers[w].Idle? && !s.stopped && s.queue != []
    case Take(w) => w < |s.workers| && s.workers[w].Popped? && s.workers[w].h.caller < |s.callers|
    case EndCall(w, _) => w < |s.workers| && s.workers[w].InCall? && s.workers[w].h.caller < |s.callers|
    case Done(w) => w < |s.workers| && s.workers[w].AfterCall?
    case Leave(w) => w < |s.workers| && s.workers[w].Idle?
    case Notify(w) => w < |s.workers| && s.workers[w].Owing?
  }

  function DoCheck(s: State, c: nat): State
    requires Enabled(s, Check(c))
  {
    var id := s.callers[c].id;
    var slot := DecideSlot(s.slot, id);
    match Decision(s.slot, id)
    case ReturnNow => s.(callers := s.callers[c := Returned], lock := -1)
    case RunHere => s.(slot := slot, callers := s.callers[c := Running(true)], begun := s.begun[c := s.begun[c] + 1])
    case Sleep => s.(callers := s.callers[c := Asleep(id)])
  }

  function DoTake(s: State, w: nat): State
    requires Enabled(s, Take(w))
  {
    var h := s.workers[w].h;
    if s.slot.open == h.id then
      s.(slot := TakeSlot(s.slot, h.id), workers := s.workers[w := InCall(h)],
         begun := s.begun[h.caller := s.begun[h.caller] + 1])
    else
      s.(workers := s.workers[w := Idle])
  }

  function Do(s: State, step: Step): State
    requires Enabled(s, step)
  {
    match step
    case EnterInline(c, _) =>
      s.(callers := s.callers[c := Running(false)], begun := s.begun[c := s.begun[c] + 1])
    case Enter(c) => s.(callers := s.callers[c := Locking])
    case Lock(c) =>
      s.(callers := s.callers[c := Numbered(s.slot.calls + 1)], lock := c,
         slot := s.slot.(calls := s.slot.calls + 1))
    case Open(c) =>
      s.(callers := s.callers[c := Opened(s.callers[c].id)], slot := s.slot.(open := s.callers[c].id))
    case Post(c) =>
      s.(callers := s.callers[c := Checking(s.callers[c].id)], queue := s.queue + [Handler(s.callers[c].id, c)])
    case PostFails(c) => s.(callers := s.callers[c := Threw(false)], lock := -1)
    case Check(c) => DoCheck(s, c)
    case WakeSpurious(c) => s.(callers := s.callers[c := Checking(s.callers[c].id)])
    case EndSelf(c, throws) =>
      s.(callers := s.callers[c := if throws then Threw(true) else Returned],
         ended := if throws then s.ended else s.ended[c := s.ended[c] + 1],
         lock := if s.callers[c].locked then -1 else s.lock)
    case Claim(w) => s.(workers := s.workers[w := Idle], slot := s.slot.(loops := s.slot.loops + 1))
    case StopLoop => s.(stopped := true)
    case Pop(w) => s.(workers := s.workers[w := Popped(s.queue[0])], queue := s.queue[1..])
    case Take(w) => DoTake(s, w)
    case EndCall(w, throws) =>
      var h := s.workers[w].h;
      if throws then
        // The owner of the loop catches it, as in reactor_udp.h, and the thread goes on.
        s.(workers := s.workers[w := Idle], broken := s.broken + {h.caller})
      else
        s.(workers := s.workers[w := AfterCall(h)], ended := s.ended[h.caller := s.ended[h.caller] + 1])
    case Done(w) =>
      s.(workers := s.workers[w := Idle], slot := s.slot.(finished := s.workers[w].h.id),
         callers := NotifyAll(s.callers))
    case Leave(w) => s.(workers := s.workers[w := Owing], slot := s.slot.(loops := s.slot.loops - 1))
    case Notify(w) => s.(workers := s.workers[w := Absent], callers := NotifyAll(s.callers))
  }

  ghost predicate Init(s: State) {
    && s.slot == Slot(0, 0, 0, 0) && s.lock == -1 && !s.stopped && s.queue == [] && s.broken == {}
    && (forall c :: 0 <= c < |s.callers| ==> s.callers[c] == Fresh)
    && (forall w :: 0 <= w < |s.workers| ==> s.workers[w] == Absent)
    && s.begun == seq(|s.callers|, _ => 0) && s.ended == seq(|s.callers|, _ => 0)
  }

  // `steps` can be executed in order from `s`.
  ghost predicate Runs(s: State, steps: seq<Step>)
    decreases |steps|
  {
    steps == [] || (Enabled(s, steps[0]) && Runs(Do(s, steps[0]), steps[1..]))
  }

  ghost function After(s: State, steps: seq<Step>): State
    requires Runs(s, steps)
    decreases |steps|
  {
    if steps == [] then s else After(Do(s, steps[0]), steps[1..])
  }

  // ---------- The invariant ----------

  predicate InRegion(p: Caller) {
    p.Numbered? || p.Opened? || p.Checking? || p.Asleep? || p == Running(true)
  }

  predicate Waits(p: Caller, id: nat) {
    p == Checking(id) || p == Asleep(id)
  }

  predicate InClosure(w: Worker) {
    w.InCall? || w.AfterCall?
  }

  function Claimed(workers: seq<Worker>): nat {
    if workers == [] then 0
    else (if IsClaim(workers[0]) then 1 else 0) + Claimed(workers[1..])
  }

  predicate IsClaim(w: Worker) {
    !w.Absent? && !w.Owing?
  }

  lemma {:induction false} ClaimedUpdate(workers: seq<Worker>, w: nat, to: Worker)
    requires w < |workers|
    ensures Claimed(workers[w := to]) ==
            Claimed(workers) - (if IsClaim(workers[w]) then 1 else 0) + (if IsClaim(to) then 1 else 0)
  {
    if w == 0 {
      assert workers[w := to][1..] == workers[1..];
    } else {
      assert workers[w := to][1..] == workers[1..][w - 1 := to];
      ClaimedUpdate(workers[1..], w - 1, to);
    }
  }

  lemma {:induction false} ClaimedPositive(workers: seq<Worker>, w: nat)
    requires w < |workers| && IsClaim(workers[w])
    ensures Claimed(workers) > 0
  {
    if w > 0 {
      ClaimedPositive(workers[1..], w - 1);
    }
  }

  lemma {:induction false} SomeClaimed(workers: seq<Worker>) returns (w: nat)
    requires Claimed(workers) > 0
    ensures w < |workers| && IsClaim(workers[w])
  {
    if !IsClaim(workers[0]) {
      w := SomeClaimed(workers[1..]);
      w := w + 1;
    } else {
      w := 0;
    }
  }

  // Where a handler that has not decided yet can be.
  ghost predicate Due(s: State, h: Handler) {
    h in s.queue || exists w :: 0 <= w < |s.workers| && s.workers[w] == Popped(h)
  }

  // The lock and the generation ids: only the holder of sync_call_ has an id, and it is the latest.
  ghost predicate LockInv(s: State) {
    && Shaped(s)
    && (forall c :: 0 <= c < |s.callers| ==> (InRegion(s.callers[c]) <==> s.lock == c))
    && (forall c :: 0 <= c < |s.callers| && InRegion(s.callers[c]) && !s.callers[c].Running? ==>
          s.callers[c].id == s.slot.calls > 0)
    && (forall c :: 0 <= c < |s.callers| && s.callers[c].Opened? ==> s.slot.open == s.callers[c].id)
    && s.slot.open <= s.slot.calls && s.slot.finished <= s.slot.calls
    && -1 <= s.lock < |s.callers|
    && s.slot.loops == Claimed(s.workers)
  }

  // A handler still due is one that was posted; if its call is still open, its caller waits for it.
  ghost predicate HandlerInv(s: State) {
    && (forall h :: Due(s, h) ==>
          && 0 < h.id <= s.slot.calls && h.caller < |s.callers|
          && (h.id == s.slot.open ==> Waits(s.callers[h.caller], h.id)))
    && (forall c, h :: 0 <= c < |s.callers| && (s.callers[c].Numbered? || s.callers[c].Opened?) && Due(s, h) ==>
          h.id < s.slot.calls)
    && (forall c :: 0 <= c < |s.callers| && (s.callers[c].Numbered? || s.callers[c].Opened?) ==>
          s.slot.finished < s.slot.calls)
  }

  // A thread inside a closure runs it for a caller that still waits for exactly that call.
  ghost predicate WorkerInv(s: State) {
    && (forall w :: 0 <= w < |s.workers| && InClosure(s.workers[w]) ==>
          var h := s.workers[w].h;
          && h.caller < |s.callers| && Waits(s.callers[h.caller], h.id)
          && s.slot.open != h.id && s.slot.finished != h.id && h.caller !in s.broken)
    && (forall v, w :: 0 <= v < |s.workers| && 0 <= w < |s.workers| && InClosure(s.workers[v]) && InClosure(s.workers[w]) ==>
          v == w)
  }

  ghost predicate Executing(s: State, c: nat) {
    exists w :: 0 <= w < |s.workers| && InClosure(s.workers[w]) && s.workers[w].h.caller == c
  }

  ghost predicate Inside(s: State, c: nat) {
    exists w :: 0 <= w < |s.workers| && s.workers[w].InCall? && s.workers[w].h.caller == c
  }

  // How often the closure of call `c` was entered and left, by what its caller is doing.
  ghost predicate CountInv(s: State, c: nat)
    requires Shaped(s) && c < |s.callers|
  {
    match s.callers[c]
    case Running(_) => s.begun[c] == 1 && s.ended[c] == 0 && c !in s.broken
    case Returned => s.begun[c] == 1 && s.ended[c] == 1 && c !in s.broken
    case Threw(ran) => s.begun[c] == (if ran then 1 else 0) && s.ended[c] == 0 && c !in s.broken
    case Checking(id) => WaitInv(s, c, id)
    case Asleep(id) => WaitInv(s, c, id)
    case _ => s.begun[c] == 0 && s.ended[c] == 0 && c !in s.broken
  }

  ghost predicate WaitInv(s: State, c: nat, id: nat)
    requires Shaped(s) && c < |s.callers|
  {
    if s.slot.open == id then
      s.begun[c] == 0 && s.ended[c] == 0 && c !in s.broken && s.slot.finished != id && Due(s, Handler(id, c))
    else if s.slot.finished == id then
      s.begun[c] == 1 && s.ended[c] == 1 && c !in s.broken
    else if c in s.broken then
      s.begun[c] == 1 && s.ended[c] == 0
    else
      Executing(s, c) && s.begun[c] == 1 && s.ended[c] == (if Inside(s, c) then 0 else 1)
  }

  // No lost wakeup: a sleeper whose condition holds is still owed a notify.
  ghost predicate WakeInv(s: State) {
    forall c :: 0 <= c < |s.callers| && s.callers[c].Asleep? && s.slot.Ready(s.callers[c].id) ==>
      Owed(s.workers)
  }

  ghost predicate Owed(workers: seq<Worker>) {
    exists w :: 0 <= w < |workers| && workers[w].Owing?
  }

  ghost predicate BrokenInv(s: State) {
    forall c :: c in s.broken ==>
      c < |s.callers| && InRegion(s.callers[c]) && (s.callers[c].Checking? || s.callers[c].Asleep?)
      && s.slot.open != s.callers[c].id && s.slot.finished != s.callers[c].id
  }

  ghost predicate Inv(s: State) {
    && LockInv(s)
    && HandlerInv(s)
    && WorkerInv(s)
    && (forall c :: 0 <= c < |s.callers| ==> CountInv(s, c))
    && WakeInv(s)
    && BrokenInv(s)
  }

  // ---------- Every step keeps it ----------

  // What a thread that is in no handler before and after does not change.
  lemma SameWork(s: State, t: State, w: nat)
    requires w < |s.workers| == |t.workers| && t.workers == s.workers[w := t.workers[w]] && s.queue == t.queue
    requires !s.workers[w].Popped? && !InClosure(s.workers[w]) && !t.workers[w].Popped? && !InClosure(t.workers[w])
    ensures forall h :: Due(s, h) <==> Due(t, h)
    ensures forall c: nat :: (Executing(s, c) <==> Executing(t, c)) && (Inside(s, c) <==> Inside(t, c))
  {
    assert forall v :: 0 <= v < |s.workers| && v != w ==> s.workers[v] == t.workers[v];
  }

  lemma SameHandlers(s: State, t: State)
    requires s.queue == t.queue && s.workers == t.workers
    ensures forall h :: Due(s, h) <==> Due(t, h)
    ensures forall c: nat :: (Executing(s, c) <==> Executing(t, c)) && (Inside(s, c) <==> Inside(t, c))
  {
  }

  lemma StillOwed(before: seq<Worker>, after: seq<Worker>, w: nat)
    requires w < |before| && w < |after| && after == before[w := after[w]] && !before[w].Owing?
    ensures Owed(before) ==> Owed(after)
  {
    assert forall v :: 0 <= v < |before| && v != w ==> before[v] == after[v];
  }

  // A caller's steps that leave the handlers and the loop threads alone, but for its check.
  predicate Plain(step: Step) {
    step.EnterInline? || step.Enter? || step.Lock? || step.Open? || step.PostFails? || step.WakeSpurious?
    || step.EndSelf? || step.StopLoop?
  }

  lemma PlainCounts(s: State, step: Step, c: nat)
    requires Inv(s) && Enabled(s, step) && Plain(step) && c < |s.callers|
    ensures Shaped(Do(s, step)) && c < |Do(s, step).callers| && CountInv(Do(s, step), c)
  {
    hide Claimed, Due, Executing, Inside, WakeInv, BrokenInv, WorkerInv;
    SameHandlers(s, Do(s, step));
    assert CountInv(s, c);
  }

  lemma PlainLocks(s: State, step: Step)
    requires LockInv(s) && Enabled(s, step) && Plain(step)
    ensures LockInv(Do(s, step))
  {
    hide Claimed;
  }

  lemma PlainHandlers(s: State, step: Step)
    requires Inv(s) && Enabled(s, step) && Plain(step)
    ensures HandlerInv(Do(s, step))
  {
    hide Claimed, Due, WorkerInv, WakeInv, BrokenInv;
    SameHandlers(s, Do(s, step));
  }

  lemma PlainThreads(s: State, step: Step)
    requires Inv(s) && Enabled(s, step) && Plain(step)
    ensures WorkerInv(Do(s, step)) && WakeInv(Do(s, step)) && BrokenInv(Do(s, step))
  {
    hide Claimed, Due, HandlerInv, Owed;
  }

  lemma KeepsPlain(s: State, step: Step)
    requires Inv(s) && Enabled(s, step) && Plain(step)
    ensures Inv(Do(s, step))
  {
    hide Do, Enabled, LockInv, HandlerInv, WorkerInv, WakeInv, BrokenInv, CountInv;
    PlainLocks(s, step);
    PlainHandlers(s, step);
    PlainThreads(s, step);
    SameCallers(s, step);
    forall c | 0 <= c < |s.callers| ensures CountInv(Do(s, step), c) {
      PlainCounts(s, step, c);
    }
  }

  lemma SameCallers(s: State, step: Step)
    requires Enabled(s, step)
    ensures Shaped(Do(s, step)) && |Do(s, step).callers| == |s.callers|
  {
  }

  lemma KeepsPost(s: State, step: Step)
    requires Inv(s) && Enabled(s, step) && step.Post?
    ensures Inv(Do(s, step))
  {
    hide Claimed;
    var t := Do(s, step);
    forall c | 0 <= c < |t.callers| ensures CountInv(t, c) {
      assert CountInv(s, c);
    }
  }

  lemma KeepsCheckReturn(s: State, c: nat)
    requires Inv(s) && Enabled(s, Check(c)) && Decision(s.slot, s.callers[c].id).ReturnNow?
    ensures Inv(Do(s, Check(c)))
  {
    hide Claimed, Due, Executing, Inside, Owed;
    var t := Do(s, Check(c));
    SameHandlers(s, t);
    assert CountInv(s, c);
    forall h | Due(t, h) ensures h.id == t.slot.open ==> Waits(t.callers[h.caller], h.id) {
      assert Due(s, h);
    }
    forall d | 0 <= d < |t.callers| ensures CountInv(t, d) {
      assert CountInv(s, d);
    }
  }

  lemma KeepsCheckRun(s: State, c: nat)
    requires Inv(s) && Enabled(s, Check(c)) && Decision(s.slot, s.callers[c].id).RunHere?
    ensures Inv(Do(s, Check(c)))
  {
    var t := Do(s, Check(c));
    assert CountInv(s, c);
    forall h | Due(t, h) ensures h.id != t.slot.open && 0 < h.id <= t.slot.calls && h.caller < |t.callers| {
      assert Due(s, h);
    }
    forall w | 0 <= w < |t.workers| && InClosure(t.workers[w]) ensures false {
      ClaimedPositive(s.workers, w);
    }
    forall d | 0 <= d < |t.callers| ensures CountInv(t, d) {
      assert CountInv(s, d);
    }
  }

  lemma KeepsCheckSleep(s: State, c: nat)
    requires Inv(s) && Enabled(s, Check(c)) && Decision(s.slot, s.callers[c].id).Sleep?
    ensures Inv(Do(s, Check(c)))
  {
    hide Claimed, Due, Executing, Inside, Owed;
    var t := Do(s, Check(c));
    SameHandlers(s, t);
    forall h | Due(t, h) ensures h.id == t.slot.open ==> Waits(t.callers[h.caller], h.id) {
      assert Due(s, h);
    }
    forall d | 0 <= d < |t.callers| ensures CountInv(t, d) {
      assert CountInv(s, d);
    }
  }

  lemma KeepsClaim(s: State, step: Step)
    requires Inv(s) && step.Claim? && Enabled(s, step)
    ensures Inv(Do(s, step))
  {
    hide Claimed;
    var t := Do(s, step);
    ClaimedUpdate(s.workers, step.w, t.workers[step.w]);
    StillOwed(s.workers, t.workers, step.w);
    SameWork(s, t, step.w);
    forall c | 0 <= c < |t.callers| ensures CountInv(t, c) {
      assert CountInv(s, c);
    }
  }

  lemma KeepsPop(s: State, step: Step)
    requires Inv(s) && step.Pop? && Enabled(s, step)
    ensures Inv(Do(s, step))
  {
    hide Claimed;
    var t := Do(s, step);
    ClaimedUpdate(s.workers, step.w, t.workers[step.w]);
    StillOwed(s.workers, t.workers, step.w);
    assert forall v :: 0 <= v < |s.workers| && v != step.w ==> s.workers[v] == t.workers[v];
    assert t.workers[step.w] == Popped(s.queue[0]);
    forall h ensures Due(s, h) <==> Due(t, h) {
      assert s.queue == [s.queue[0]] + t.queue;
    }
    forall c | 0 <= c < |t.callers| ensures CountInv(t, c) {
      assert CountInv(s, c);
    }
  }

  lemma KeepsDone(s: State, step: Step)
    requires Inv(s) && step.Done? && Enabled(s, step)
    ensures Inv(Do(s, step))
  {
    hide Claimed;
    var t := Do(s, step);
    ClaimedUpdate(s.workers, step.w, t.workers[step.w]);
    StillOwed(s.workers, t.workers, step.w);
    forall c | 0 <= c < |t.callers| ensures CountInv(t, c) {
      assert CountInv(s, c);
    }
  }

  lemma KeepsLeave(s: State, step: Step)
    requires Inv(s) && step.Leave? && Enabled(s, step)
    ensures Inv(Do(s, step))
  {
    hide Claimed;
    var t := Do(s, step);
    ClaimedUpdate(s.workers, step.w, t.workers[step.w]);
    assert t.workers[step.w].Owing?;
    SameWork(s, t, step.w);
    forall c | 0 <= c < |t.callers| ensures CountInv(t, c) {
      assert CountInv(s, c);
    }
  }

  lemma KeepsNotify(s: State, step: Step)
    requires Inv(s) && step.Notify? && Enabled(s, step)
    ensures Inv(Do(s, step))
  {
    hide Claimed;
    var t := Do(s, step);
    ClaimedUpdate(s.workers, step.w, t.workers[step.w]);
    SameWork(s, t, step.w);
    forall c | 0 <= c < |t.callers| ensures CountInv(t, c) {
      assert CountInv(s, c);
    }
  }

  lemma KeepsTakeStale(s: State, w: nat)
    requires Inv(s) && Enabled(s, Take(w)) && s.slot.open != s.workers[w].h.id
    ensures Inv(Do(s, Take(w)))
  {
    hide Claimed;
    var t := Do(s, Take(w));
    ClaimedUpdate(s.workers, w, t.workers[w]);
    StillOwed(s.workers, t.workers, w);
    assert forall v :: 0 <= v < |s.workers| && v != w ==> s.workers[v] == t.workers[v];
    forall c | 0 <= c < |t.callers| ensures CountInv(t, c) {
      assert CountInv(s, c);
    }
  }

  // A handler that finds its call open finds no other thread in a closure.
  lemma TakeIsAlone(s: State, w: nat)
    requires Inv(s) && Enabled(s, Take(w)) && s.slot.open == s.workers[w].h.id
    ensures Waits(s.callers[s.workers[w].h.caller], s.slot.open) && s.slot.open == s.slot.calls
    ensures s.lock == s.workers[w].h.caller
    ensures forall v :: 0 <= v < |s.workers| ==> !InClosure(s.workers[v])
  {
    assert Due(s, s.workers[w].h);
  }

  lemma KeepsTakeOpenCounts(s: State, w: nat, c: nat)
    requires Inv(s) && Enabled(s, Take(w)) && s.slot.open == s.workers[w].h.id && c < |s.callers|
    ensures CountInv(Do(s, Take(w)), c)
  {
    TakeIsAlone(s, w);
    assert CountInv(s, c);
    var t := Do(s, Take(w));
    assert t.workers[w] == InCall(s.workers[w].h);
  }

  lemma KeepsTakeOpen(s: State, w: nat)
    requires Inv(s) && Enabled(s, Take(w)) && s.slot.open == s.workers[w].h.id
    ensures Inv(Do(s, Take(w)))
  {
    var t := Do(s, Take(w));
    TakeIsAlone(s, w);
    ClaimedUpdate(s.workers, w, t.workers[w]);
    assert LockInv(t);
    assert HandlerInv(t) by {
      forall h | Due(t, h) ensures Due(s, h) {
        assert forall v :: 0 <= v < |s.workers| && v != w ==> s.workers[v] == t.workers[v];
      }
    }
    StillOwed(s.workers, t.workers, w);
    assert WakeInv(t);
    assert CountInv(s, s.workers[w].h.caller);
    forall c | 0 <= c < |t.callers| ensures CountInv(t, c) {
      KeepsTakeOpenCounts(s, w, c);
    }
  }

  lemma KeepsEndCall(s: State, w: nat, throws: bool)
    requires Inv(s) && Enabled(s, EndCall(w, throws))
    ensures Inv(Do(s, EndCall(w, throws)))
  {
    hide Claimed;
    var t := Do(s, EndCall(w, throws));
    ClaimedUpdate(s.workers, w, t.workers[w]);
    StillOwed(s.workers, t.workers, w);
    assert forall v :: 0 <= v < |s.workers| && v != w ==> s.workers[v] == t.workers[v];
    assert forall h :: Due(s, h) <==> Due(t, h);
    forall c | 0 <= c < |t.callers| ensures CountInv(t, c) {
      assert CountInv(s, c);
    }
  }

  lemma StepKeeps(s: State, step: Step)
    requires Inv(s) && Enabled(s, step)
    ensures Inv(Do(s, step))
  {
    match step
    case Post(_) => KeepsPost(s, step);
    case Check(c) =>
      match Decision(s.slot, s.callers[c].id) {
        case ReturnNow => KeepsCheckReturn(s, c);
        case RunHere => KeepsCheckRun(s, c);
        case Sleep => KeepsCheckSleep(s, c);
      }
    case Claim(_) => KeepsClaim(s, step);
    case Pop(_) => KeepsPop(s, step);
    case Take(w) => if s.slot.open == s.workers[w].h.id { KeepsTakeOpen(s, w); } else { KeepsTakeStale(s, w); }
    case EndCall(w, throws) => KeepsEndCall(s, w, throws);
    case Done(_) => KeepsDone(s, step);
    case Leave(_) => KeepsLeave(s, step);
    case Notify(_) => KeepsNotify(s, step);
    case _ => KeepsPlain(s, step);
  }

  lemma {:induction false} NoneClaimed(workers: seq<Worker>)
    requires forall w :: 0 <= w < |workers| ==> workers[w] == Absent
    ensures Claimed(workers) == 0
  {
    if workers != [] {
      NoneClaimed(workers[1..]);
    }
  }

  lemma {:induction false} RunKeeps(s: State, steps: seq<Step>)
    requires Inv(s) && Runs(s, steps)
    ensures Inv(After(s, steps))
    decreases |steps|
  {
    if steps != [] {
      StepKeeps(s, steps[0]);
      RunKeeps(Do(s, steps[0]), steps[1..]);
    }
  }

  lemma Reachable(s: State, steps: seq<Step>)
    requires Init(s) && Runs(s, steps)
    ensures Inv(After(s, steps))
  {
    NoneClaimed(s.workers);
    assert forall h :: !Due(s, h);
    RunKeeps(s, steps);
  }

  // ---------- Main results ----------

  // In every interleaving, each closure is entered at most once; a call that has returned had its
  // closure run exactly once, to its end; and no two closures of posted calls ever overlap.
  lemma ExactlyOnce(s: State, steps: seq<Step>, c: nat)
    requires Init(s) && Runs(s, steps) && c < |After(s, steps).callers|
    ensures var t := After(s, steps);
            && |t.begun| == |t.ended| == |t.callers|
            && t.ended[c] <= t.begun[c] <= 1
            && (t.callers[c].Returned? ==> t.begun[c] == 1 && t.ended[c] == 1)
            && (t.callers[c] == Threw(false) ==> t.begun[c] == 0)
            && (forall w :: 0 <= w < |t.workers| && InClosure(t.workers[w]) ==>
                  && !(t.callers[c] == Running(true))
                  && (forall v :: 0 <= v < |t.workers| && InClosure(t.workers[v]) ==> v == w))
  {
    Reachable(s, steps);
    assert CountInv(After(s, steps), c);
  }

  // The steps that run inside the closure of call `c`.
  predicate Touches(s: State, step: Step, c: nat)
    requires Enabled(s, step)
  {
    match step
    case EnterInline(d, _) => d == c
    case EndSelf(d, _) => d == c
    case Check(d) => d == c && Do(s, step).callers[c].Running?
    case Take(w) => s.workers[w].h.caller == c && Do(s, step).workers[w].InCall?
    case EndCall(w, _) => s.workers[w].h.caller == c
    case _ => false
  }

  // The borrowed closure is never touched once its caller has left, by a stale handler or anyone else.
  lemma NeverTouchedAfterReturn(s: State, steps: seq<Step>, next: Step, c: nat)
    requires Init(s) && Runs(s, steps)
    requires Enabled(After(s, steps), next) && c < |After(s, steps).callers|
    requires Touches(After(s, steps), next, c)
    ensures !After(s, steps).callers[c].Returned? && !After(s, steps).callers[c].Threw?
  {
    Reachable(s, steps);
    var t := After(s, steps);
    if next.Take? {
      assert Due(t, t.workers[next.w].h);
    }
  }

  // Where a closure runs: on a loop thread, or on its caller if the caller is on the loop or no loop
  // thread is left. So while a thread is in the loop nothing else touches what the loop owns.
  lemma CallerRunsOnlyOffALoop(s: State, steps: seq<Step>, next: Step, c: nat)
    requires Init(s) && Runs(s, steps) && Enabled(After(s, steps), next) && c < |After(s, steps).callers|
    ensures var t := After(s, steps);
            c < |Do(t, next).callers| && !t.callers[c].Running? && Do(t, next).callers[c].Running? ==>
              next == EnterInline(c, true) || forall w :: 0 <= w < |t.workers| ==> !IsClaim(t.workers[w])
  {
    Reachable(s, steps);
    BeginsHere(After(s, steps), next, c);
  }

  lemma BeginsHere(t: State, step: Step, c: nat)
    requires LockInv(t) && Enabled(t, step) && c < |t.callers|
    ensures c < |Do(t, step).callers| && !t.callers[c].Running? && Do(t, step).callers[c].Running? ==>
              step == EnterInline(c, true) || forall w :: 0 <= w < |t.workers| ==> !IsClaim(t.workers[w])
  {
    forall w | 0 <= w < |t.workers| && IsClaim(t.workers[w]) ensures t.slot.loops > 0 {
      ClaimedPositive(t.workers, w);
    }
  }

  // What makes stale handlers harmless: a call's id is larger than that of every handler still queued or
  // popped, and than the last call opened or done, whatever calls came before.
  lemma FreshId(s: State, steps: seq<Step>, c: nat, h: Handler)
    requires Init(s) && Runs(s, steps) && Enabled(After(s, steps), Lock(c))
    ensures var t := After(s, steps);
            var p := Do(t, Lock(c)).callers[c];
            && p.Numbered? && p.id > t.slot.open && p.id > t.slot.finished
            && (Due(t, h) ==> p.id > h.id > 0)
  {
    Reachable(s, steps);
  }

  // No lost wakeup: a caller asleep although its condition holds is owed a notify.
  lemma NoLostWakeup(s: State, steps: seq<Step>, c: nat)
    requires Init(s) && Runs(s, steps)
    ensures var t := After(s, steps);
            c < |t.callers| && t.callers[c].Asleep? && t.slot.Ready(t.callers[c].id) ==>
              exists w :: 0 <= w < |t.workers| && t.workers[w].Owing?
  {
    Reachable(s, steps);
  }

  predicate Settled(p: Caller) {
    p.Returned? || p.Threw?
  }

  // The steps nobody is obliged to take: a new claim and a spurious wakeup.
  predicate Spontaneous(step: Step) {
    step.Claim? || step.WakeSpurious?
  }

  // The steps that finish what was started: no new call, claim, stop or spurious wakeup; and a thread
  // leaves its loop only when the loop is stopped.
  predicate Finishing(step: Step, stopped: bool) {
    !Spontaneous(step) && !step.StopLoop? && !step.Enter? && !step.EnterInline? && (step.Leave? ==> stopped)
  }

  // A started call is never stuck, on a running loop or a stopped one: unless a closure threw on the
  // loop, some caller, handler, departure or notify step is enabled.
  lemma NoDeadlock(s: State, steps: seq<Step>, c: nat) returns (next: Step)
    requires Init(s) && Runs(s, steps)
    requires var t := After(s, steps);
             c < |t.callers| && !Settled(t.callers[c]) && !t.callers[c].Fresh? && t.broken == {}
    ensures Enabled(After(s, steps), next) && Finishing(next, After(s, steps).stopped)
  {
    Reachable(s, steps);
    next := SomeStep(After(s, steps), c);
  }

  lemma SomeStep(t: State, c: nat) returns (next: Step)
    requires Inv(t) && t.broken == {}
    requires c < |t.callers| && !Settled(t.callers[c]) && !t.callers[c].Fresh?
    ensures Enabled(t, next) && Finishing(next, t.stopped)
    decreases t.callers[c].Locking?
  {
    if t.callers[c].Locking? && t.lock != -1 {
      next := SomeStep(t, t.lock);
      return;
    }
    match t.callers[c] {
      case Locking => next := Lock(c);
      case Numbered(_) => next := Open(c);
      case Opened(_) => next := Post(c);
      case Checking(_) => next := Check(c);
      case Running(_) => next := EndSelf(c, false);
      case Asleep(id) => next := WakeStep(t, c);
    }
  }

  // A sleeper's call is done, under way, about to be popped, or freed by the threads leaving.
  lemma WakeStep(t: State, c: nat) returns (next: Step)
    requires Inv(t) && t.broken == {} && c < |t.callers| && t.callers[c].Asleep?
    ensures Enabled(t, next) && Finishing(next, t.stopped)
  {
    var id := t.callers[c].id;
    assert CountInv(t, c);
    if t.slot.Ready(id) {
      var w :| 0 <= w < |t.workers| && t.workers[w].Owing?;
      next := Notify(w);
    } else if t.slot.open == id {
      var w := SomeClaimed(t.workers);
      if t.workers[w].Idle? && t.stopped {
        next := Leave(w);
      } else if t.workers[w].Idle? && Handler(id, c) in t.queue {
        next := Pop(w);
      } else {
        next := HandlerStep(t, c, id, w);
      }
    } else {
      var w :| 0 <= w < |t.workers| && InClosure(t.workers[w]) && t.workers[w].h.caller == c;
      next := if t.workers[w].InCall? then EndCall(w, false) else Done(w);
    }
  }

  lemma HandlerStep(t: State, c: nat, id: nat, w: nat) returns (next: Step)
    requires Inv(t) && w < |t.workers| && IsClaim(t.workers[w])
    requires Due(t, Handler(id, c)) && !(t.workers[w].Idle? && Handler(id, c) in t.queue)
    ensures Enabled(t, next)
    ensures next.Take? || next.EndCall? || next.Done?
  {
    var v := w;
    if t.workers[w].Idle? {
      v :| 0 <= v < |t.workers| && t.workers[v] == Popped(Handler(id, c));
    }
    match t.workers[v] {
      case Popped(h) =>
        assert Due(t, h);
        next := Take(v);
      case InCall(h) => next := EndCall(v, false);
      case AfterCall(h) => next := Done(v);
    }
  }

  // ---------- Termination ----------

  function WorkerWeight(w: Worker, n: nat): nat {
    match w
    case Absent => 0
    case Owing => n + 1
    case Idle => n + 2
    case AfterCall(_) => 2 * n + 3
    case InCall(_) => 2 * n + 4
    case Popped(_) => 2 * n + 5
  }

  function CallerWeight(p: Caller, n: nat): nat {
    match p
    case Returned => 0
    case Threw(_) => 0
    case Running(_) => 1
    case Asleep(_) => 2
    case Checking(_) => 3
    case Opened(_) => n + 8
    case Numbered(_) => n + 9
    case Locking => n + 10
    case Fresh => n + 11
  }

  function WorkersWeight(workers: seq<Worker>, n: nat): nat {
    if workers == [] then 0 else WorkerWeight(workers[0], n) + WorkersWeight(workers[1..], n)
  }

  function CallersWeight(callers: seq<Caller>, n: nat): nat {
    if callers == [] then 0 else CallerWeight(callers[0], n) + CallersWeight(callers[1..], n)
  }

  // A bound on the steps still to come.
  function Fuel(s: State): nat {
    var n := |s.callers|;
    CallersWeight(s.callers, n) + WorkersWeight(s.workers, n) + QueueWeight(|s.queue|, n) + (if s.stopped then 0 else 1)
  }

  function QueueWeight(k: nat, n: nat): nat {
    if k == 0 then 0 else n + 4 + QueueWeight(k - 1, n)
  }

  lemma {:induction false} WorkersUpdate(workers: seq<Worker>, w: nat, to: Worker, n: nat)
    requires w < |workers|
    ensures WorkersWeight(workers[w := to], n) == WorkersWeight(workers, n) - WorkerWeight(workers[w], n) + WorkerWeight(to, n)
  {
    if w == 0 {
      assert workers[w := to][1..] == workers[1..];
    } else {
      assert workers[w := to][1..] == workers[1..][w - 1 := to];
      WorkersUpdate(workers[1..], w - 1, to, n);
    }
  }

  lemma {:induction false} CallersUpdate(callers: seq<Caller>, c: nat, to: Caller, n: nat)
    requires c < |callers|
    ensures CallersWeight(callers[c := to], n) == CallersWeight(callers, n) - CallerWeight(callers[c], n) + CallerWeight(to, n)
  {
    if c == 0 {
      assert callers[c := to][1..] == callers[1..];
    } else {
      assert callers[c := to][1..] == callers[1..][c - 1 := to];
      CallersUpdate(callers[1..], c - 1, to, n);
    }
  }

  lemma {:induction false} NotifyWeight(callers: seq<Caller>, n: nat)
    ensures CallersWeight(NotifyAll(callers), n) <= CallersWeight(callers, n) + |callers|
  {
    if callers != [] {
      assert NotifyAll(callers)[1..] == NotifyAll(callers[1..]);
      NotifyWeight(callers[1..], n);
    }
  }

  predicate WorkerStep(step: Step) {
    step.Pop? || step.Take? || step.EndCall? || step.Done? || step.Leave? || step.Notify?
  }

  lemma FuelDecreasesOnWorker(s: State, step: Step)
    requires Enabled(s, step) && WorkerStep(step)
    ensures Fuel(Do(s, step)) < Fuel(s)
  {
    hide CallersWeight, WorkersWeight;
    var t := Do(s, step);
    var n := |s.callers|;
    WorkersUpdate(s.workers, step.w, t.workers[step.w], n);
    if step.Done? || step.Notify? {
      NotifyWeight(s.callers, n);
    }
  }

  lemma FuelDecreasesOnCaller(s: State, step: Step)
    requires Enabled(s, step) && !WorkerStep(step) && !step.StopLoop? && !Spontaneous(step)
    ensures Fuel(Do(s, step)) < Fuel(s)
  {
    hide CallersWeight, WorkersWeight;
    var t := Do(s, step);
    var n := |s.callers|;
    CallersUpdate(s.callers, step.c, t.callers[step.c], n);
    if step.Post? {
      assert |t.queue| == |s.queue| + 1;
    }
  }

  // Every step somebody is obliged to take uses the bound up.
  lemma FuelDecreases(s: State, step: Step)
    requires Enabled(s, step) && !Spontaneous(step)
    ensures Fuel(Do(s, step)) < Fuel(s)
  {
    if WorkerStep(step) {
      FuelDecreasesOnWorker(s, step);
    } else if !step.StopLoop? {
      FuelDecreasesOnCaller(s, step);
    }
  }

  // Without new claims and spurious wakeups the protocol makes only boundedly many steps.
  lemma {:induction false} RunsAreBounded(s: State, steps: seq<Step>)
    requires Runs(s, steps) && forall k :: 0 <= k < |steps| ==> !Spontaneous(steps[k])
    ensures |steps| + Fuel(After(s, steps)) <= Fuel(s)
    decreases |steps|
  {
    if steps != [] {
      FuelDecreases(s, steps[0]);
      RunsAreBounded(Do(s, steps[0]), steps[1..]);
    }
  }

  // And when no finishing step is left, on a loop that runs on or on a stopped one, every call that was
  // started has been settled, if and only if no closure threw on a loop thread: a throw leaves
  // sync_done_ unset, and its caller and all behind it wait forever.
  lemma QuietMeansSettled(s: State, steps: seq<Step>)
    requires Init(s) && Runs(s, steps)
    requires forall step :: Enabled(After(s, steps), step) ==> !Finishing(step, After(s, steps).stopped)
    ensures (forall c :: 0 <= c < |After(s, steps).callers| ==>
               After(s, steps).callers[c].Fresh? || Settled(After(s, steps).callers[c]))
            <==> After(s, steps).broken == {}
  {
    Reachable(s, steps);
    var t := After(s, steps);
    if t.broken == {} {
      forall c | 0 <= c < |t.callers| ensures t.callers[c].Fresh? || Settled(t.callers[c]) {
        if !t.callers[c].Fresh? && !Settled(t.callers[c]) {
          var next := SomeStep(t, c);
        }
      }
    } else {
      var c :| c in t.broken;
      assert !t.callers[c].Fresh? && !Settled(t.callers[c]);
    }
  }

  // ---------- A closure that throws on the loop ----------

  // A call whose closure threw on the loop never returns, whatever happens afterwards, and no call that
  // waits behind it for sync_call_ ever gets it.
  lemma ThrowOnLoopNeverReturns(s: State, steps: seq<Step>, more: seq<Step>, c: nat, d: nat)
    requires Init(s) && Runs(s, steps) && c in After(s, steps).broken && Runs(After(s, steps), more)
    ensures var t := After(After(s, steps), more);
            && c < |t.callers| && !Settled(t.callers[c])
            && (d < |After(s, steps).callers| && After(s, steps).callers[d].Locking? ==>
                  d < |t.callers| && t.callers[d].Locking?)
  {
    Reachable(s, steps);
    StaysBroken(After(s, steps), more, c, d);
  }

  lemma {:induction false} StaysBroken(s: State, steps: seq<Step>, c: nat, d: nat)
    requires Inv(s) && Runs(s, steps) && c in s.broken
    ensures var t := After(s, steps);
            && c in t.broken && c < |t.callers| && !Settled(t.callers[c])
            && (d < |s.callers| && s.callers[d].Locking? ==> d < |t.callers| && t.callers[d].Locking?)
    decreases |steps|
  {
    if steps != [] {
      StepKeeps(s, steps[0]);
      StillBroken(s, steps[0], c, d);
      hide Do, Enabled;
      StaysBroken(Do(s, steps[0]), steps[1..], c, d);
    }
  }

  lemma StillBroken(s: State, step: Step, c: nat, d: nat)
    requires LockInv(s) && BrokenInv(s) && Enabled(s, step) && c in s.broken
    ensures c in Do(s, step).broken
    ensures d < |s.callers| && s.callers[d].Locking? ==> d < |Do(s, step).callers| && Do(s, step).callers[d].Locking?
  {
    hide Claimed;
    assert s.lock == c;
  }

  // And it does happen, with one caller and one loop thread: the handler takes the call, the closure
  // throws, and the caller is left waiting.
  lemma ThrowStrandsTheCaller(s: State) returns (steps: seq<Step>)
    requires Init(s) && |s.callers| == 1 && |s.workers| == 1
    ensures Runs(s, steps) && After(s, steps).broken == {0}
  {
    var s1 := Do(s, Claim(0));
    var s2 := Do(s1, Enter(0));
    var s3 := Do(s2, Lock(0));
    var s4 := Do(s3, Open(0));
    var s5 := Do(s4, Post(0));
    var s6 := Do(s5, Pop(0));
    var s7 := Do(s6, Take(0));
    var s8 := Do(s7, EndCall(0, true));
    assert s8.broken == {0};
    assert Runs(s8, []) && After(s8, []) == s8;
    hide Runs, After, Do, Enabled;
    steps := OneMore(s7, EndCall(0, true), []);
    steps := OneMore(s6, Take(0), steps);
    steps := OneMore(s5, Pop(0), steps);
    steps := OneMore(s4, Post(0), steps);
    steps := OneMore(s3, Open(0), steps);
    steps := OneMore(s2, Lock(0), steps);
    steps := OneMore(s1, Enter(0), steps);
    steps := OneMore(s, Claim(0), steps);
  }

  lemma OneMore(s: State, step: Step, rest: seq<Step>) returns (steps: seq<Step>)
    requires Enabled(s, step) && Runs(Do(s, step), rest)
    ensures Runs(s, steps) && After(s, steps) == After(Do(s, step), rest)
  {
    steps := [step] + rest;
    assert steps[1..] == rest;
  }
}

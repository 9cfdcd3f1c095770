/**
 Signal of reactor_events.h: sends from any number of threads coalesce into one queued handler. A
 step is one atomic operation, one post, or one end of the callback.
 */
module Signal {
  datatype Sender = Outside | Posting            // won the exchange, has yet to post

  datatype Loop =
    | Free
    | Popped                                     // about to store false into pending
    | Cleared                                    // about to call back
    | InCallback

  datatype Event = Sent | Called                 // an exchange of send(); a callback starting

  datatype State = State(pending: bool, senders: seq<Sender>, queued: nat, loop: Loop, log: seq<Event>)

  datatype Step = Send(t: nat) | Post(t: nat) | Pop | Clear | Call | CallEnds

  predicate Enabled(s: State, step: Step) {
    match step
    case Send(t) => t < |s.senders| && s.senders[t].Outside?
    case Post(t) => t < |s.senders| && s.senders[t].Posting?
    case Pop => s.loop.Free? && s.queued > 0
    case Clear => s.loop.Popped?
    case Call => s.loop.Cleared?
    case CallEnds => s.loop.InCallback?
  }

  function Do(s: State, step: Step): State
    requires Enabled(s, step)
  {
    match step
    case Send(t) =>
      s.(pending := true, log := s.log + [Sent], senders := if s.pending then s.senders else s.senders[t := Posting])
    case Post(t) => s.(senders := s.senders[t := Outside], queued := s.queued + 1)
    case Pop => s.(queued := s.queued - 1, loop := Popped)
    case Clear => s.(pending := false, loop := Cleared)
    case Call => s.(loop := InCallback, log := s.log + [Called])
    case CallEnds => s.(loop := Free)
  }

  ghost predicate Init(s: State) {
    !s.pending && s.queued == 0 && s.loop.Free? && s.log == []
    && forall t :: 0 <= t < |s.senders| ==> s.senders[t].Outside?
  }

  ghost predicate Runs(s: State, steps: seq<Step>)
    decreases |steps|
  {
    steps == [] || (Enabled(s, steps[0]) && Runs(Do(s, steps[0]), steps[1..]))
  }

  ghost function After(s: State, steps: seq<Step>): State
    requires Runs(s, steps)
    decreases |steps|
  {
    if steps == [] then s else After(Do(s, steps[0]), steps[1..])
  }

  function Posters(senders: seq<Sender>): nat {
    if senders == [] then 0 else (if senders[0].Posting? then 1 else 0) + Posters(senders[1..])
  }

  lemma {:induction false} PostersUpdate(senders: seq<Sender>, t: nat, to: Sender)
    requires t < |senders|
    ensures Posters(senders[t := to]) ==
            Posters(senders) - (if senders[t].Posting? then 1 else 0) + (if to.Posting? then 1 else 0)
  {
    if t == 0 {
      assert senders[t := to][1..] == senders[1..];
    } else {
      assert senders[t := to][1..] == senders[1..][t - 1 := to];
      PostersUpdate(senders[1..], t - 1, to);
    }
  }

  lemma {:induction false} NoPosters(senders: seq<Sender>)
    requires forall t :: 0 <= t < |senders| ==> senders[t].Outside?
    ensures Posters(senders) == 0
  {
    if senders != [] {
      NoPosters(senders[1..]);
    }
  }

  // Handlers that are queued, about to be posted, or popped with pending still set.
  function Due(s: State): nat {
    Posters(s.senders) + s.queued + (if s.loop.Popped? then 1 else 0)
  }

  function Tally(log: seq<Event>, e: Event): nat {
    if log == [] then 0 else Tally(log[..|log| - 1], e) + (if log[|log| - 1] == e then 1 else 0)
  }

  // Some send has had no callback start after it.
  predicate Unanswered(log: seq<Event>) {
    log != [] && log[|log| - 1].Sent?
  }

  ghost predicate Inv(s: State) {
    && Due(s) == (if s.pending then 1 else 0)
    && (Unanswered(s.log) ==> s.pending || s.loop.Cleared?)
    && Tally(s.log, Called) + Due(s) + (if s.loop.Cleared? then 1 else 0) <= Tally(s.log, Sent)
  }

  lemma StepKeeps(s: State, step: Step)
    requires Inv(s) && Enabled(s, step)
    ensures Inv(Do(s, step))
  {
    var t := Do(s, step);
    if step.Send? || step.Post? {
      PostersUpdate(s.senders, step.t, t.senders[step.t]);
      assert s.senders[step.t := s.senders[step.t]] == s.senders;
    }
    if step.Send? || step.Call? {
      assert t.log[..|t.log| - 1] == s.log;
    }
  }

  lemma {:induction false} RunKeeps(s: State, steps: seq<Step>)
    requires Inv(s) && Runs(s, steps)
    ensures Inv(After(s, steps))
    decreases |steps|
  {
    if steps != [] {
      StepKeeps(s, steps[0]);
      RunKeeps(Do(s, steps[0]), steps[1..]);
    }
  }

  // ---------- Main result ----------

  // In every interleaving: pending is set exactly while one handler is due; every send is followed by
  // a callback that starts after it, or a handler is still due, or the callback is just starting; and
  // callbacks never outnumber sends.
  lemma EverySendAnswered(s: State, steps: seq<Step>, i: nat)
    requires Init(s) && Runs(s, steps) && i < |After(s, steps).log| && After(s, steps).log[i].Sent?
    ensures var t := After(s, steps);
            && (t.pending <==> Due(t) == 1) && Due(t) <= 1
            && ((exists j :: i < j < |t.log| && t.log[j].Called?) || Due(t) == 1 || t.loop.Cleared?)
            && Tally(t.log, Called) <= Tally(t.log, Sent)
  {
    NoPosters(s.senders);
    RunKeeps(s, steps);
    var t := After(s, steps);
    if !Unanswered(t.log) {
      assert t.log[|t.log| - 1].Called?;
    }
  }

  // A queued handler is answered: when the loop is free, running it clears pending, calls back once and
  // leaves the loop free again, whatever the senders are in the middle of.
  lemma HandlerAnswers(s: State)
    requires s.loop.Free? && s.queued > 0
    ensures Runs(s, [Pop, Clear, Call, CallEnds])
    ensures After(s, [Pop, Clear, Call, CallEnds]) == s.(pending := false, queued := s.queued - 1, log := s.log + [Called])
  {
    var popped := s.(queued := s.queued - 1, loop := Popped);
    var cleared := popped.(pending := false, loop := Cleared);
    var called := cleared.(loop := InCallback, log := s.log + [Called]);
    var free := called.(loop := Free);
    assert Do(called, CallEnds) == free && Runs(free, []);
    assert [CallEnds][1..] == [];
    assert Runs(called, [CallEnds]) && After(called, [CallEnds]) == free;
    assert [Call, CallEnds][1..] == [CallEnds];
    assert Runs(cleared, [Call, CallEnds]) && After(cleared, [Call, CallEnds]) == free;
    assert [Clear, Call, CallEnds][1..] == [Call, CallEnds];
    assert Runs(popped, [Clear, Call, CallEnds]) && After(popped, [Clear, Call, CallEnds]) == free;
    assert [Pop, Clear, Call, CallEnds][1..] == [Clear, Call, CallEnds];
  }
}

/**
 AcceptControl::retry of reactor.h: what an accept error costs. `skipped` is an unsigned int and
 wraps at 2^32; delays are in milliseconds.
 */
module AcceptBackoff {
  import opened Basics

  const FIRST_DELAY := 10
  const LAST_DELAY := 1000
  const FREE_SKIPS := 64
  const UINT: nat := 0x1_0000_0000

  // How the error is classified: it belongs to one pending connection, the listener is gone (an
  // EINVAL from a socket that is no longer the bound listener), it is a resource error.
  datatype AcceptError = AcceptError(perConnection: bool, listenerLost: bool, retryable: bool)

  datatype Reply = EndLoop | GoOn | Pause(ms: nat) | Throw

  datatype Backoff = Backoff(retryDelay: nat, skipped: nat)

  class AcceptControl {
    var retryDelay: nat
    var skipped: nat
    var stopping: bool

    ghost function View(): Backoff
      reads this
    {
      Backoff(retryDelay, skipped)
    }

    constructor ()
      ensures View() == FRESH && !stopping
    {
      retryDelay, skipped, stopping := FIRST_DELAY, 0, false;
    }

    // A successful accept.
    method Accepted()
      modifies `retryDelay, `skipped
      ensures View() == FRESH
    {
      retryDelay := FIRST_DELAY;
      skipped := 0;
    }

    // retry(error), up to its pause.
    method Retry(error: AcceptError) returns (reply: Reply)
      modifies `retryDelay, `skipped
      ensures stopping ==> reply == EndLoop && View() == old(View())
      ensures !stopping ==> reply == Answer(old(View()), Classify(error)) && View() == Next(old(View()), Classify(error))
      ensures !stopping && error.perConnection && !error.listenerLost ==>
                retryDelay == old(retryDelay) && reply == if skipped <= 64 then GoOn else Pause(1)
      ensures !stopping && (!error.perConnection || error.listenerLost) && error.retryable ==>
                skipped == old(skipped) && reply == Pause(old(retryDelay))
      ensures !stopping && (!error.perConnection || error.listenerLost) && !error.retryable ==>
                View() == old(View()) && reply == Throw
    {
      if stopping {
        return EndLoop;
      }
      var perConnection := error.perConnection && !error.listenerLost;
      if perConnection {
        skipped := (skipped + 1) % UINT;
        if skipped <= FREE_SKIPS {
          return GoOn;
        }
      }
      if !perConnection && !error.retryable {
        return Throw;
      }
      var delay := 1;
      if !perConnection {
        delay := retryDelay;
        retryDelay := if retryDelay * 2 < LAST_DELAY then retryDelay * 2 else LAST_DELAY;
      }
      return Pause(delay);
    }
  }

  const FRESH := Backoff(FIRST_DELAY, 0)

  // What happens to the accept loop, one completion at a time.
  datatype Happening = Success | Skip | Resource | Fatal

  function Classify(error: AcceptError): (h: Happening)
    ensures h.Skip? <==> error.perConnection && !error.listenerLost
    ensures h.Resource? <==> !(error.perConnection && !error.listenerLost) && error.retryable
    ensures h.Fatal? <==> !(error.perConnection && !error.listenerLost) && !error.retryable
  {
    if error.perConnection && !error.listenerLost then Skip else if error.retryable then Resource else Fatal
  }

  function Next(b: Backoff, h: Happening): Backoff {
    match h
    case Success => FRESH
    case Skip => b.(skipped := (b.skipped + 1) % UINT)
    case Resource => b.(retryDelay := if b.retryDelay * 2 < LAST_DELAY then b.retryDelay * 2 else LAST_DELAY)
    case Fatal => b
  }

  function Answer(b: Backoff, h: Happening): Reply {
    match h
    case Success => GoOn
    case Skip => if Next(b, h).skipped <= FREE_SKIPS then GoOn else Pause(1)
    case Resource => Pause(b.retryDelay)
    case Fatal => Throw
  }

  // ---------- Every run of outcomes ----------

  function After(history: seq<Happening>): Backoff {
    if history == [] then FRESH else Next(After(history[..|history| - 1]), history[|history| - 1])
  }

  // How many `h` there were since the last success.
  function Since(history: seq<Happening>, h: Happening): nat {
    if history == [] || history[|history| - 1].Success? then 0
    else Since(history[..|history| - 1], h) + (if history[|history| - 1] == h then 1 else 0)
  }

  // 10 * 2^k, capped.
  function Delay(k: nat): (ms: nat)
    ensures FIRST_DELAY <= ms <= LAST_DELAY
  {
    if k == 0 then FIRST_DELAY else if 2 * Delay(k - 1) < LAST_DELAY then 2 * Delay(k - 1) else LAST_DELAY
  }

  lemma {:induction false} DelayIsCappedDoubling(k: nat)
    ensures Delay(k) == if 10 * Pow2(k) < 1000 then 10 * Pow2(k) else 1000
  {
    if k > 0 {
      DelayIsCappedDoubling(k - 1);
    }
  }

  lemma {:induction false} AfterHistory(history: seq<Happening>)
    ensures After(history) == Backoff(Delay(Since(history, Resource)), Since(history, Skip) % UINT)
  {
    if history != [] {
      var before := history[..|history| - 1];
      AfterHistory(before);
      if history[|history| - 1].Skip? {
        WrapNext(Since(before, Skip));
      }
    }
  }

  lemma WrapNext(n: nat)
    ensures (n % UINT + 1) % UINT == (n + 1) % UINT
  {
  }

  // Whatever happened before, the k-th resource error since the last success pauses
  // min(10 * 2^(k-1), 1000) ms, however many connection errors came between. A launch that runs out of
  // memory comes right after a successful accept, so for it k is always 1: it never backs off.
  lemma {:induction false} ResourcePause(history: seq<Happening>)
    ensures var k := Since(history, Resource) + 1;
            Answer(After(history), Resource) == Pause(if 10 * Pow2(k - 1) < 1000 then 10 * Pow2(k - 1) else 1000)
  {
    AfterHistory(history);
    DelayIsCappedDoubling(Since(history, Resource));
  }

  // The n-th connection error since the last success pauses 1 ms, unless n is at most 64 modulo 2^32.
  lemma {:induction false} SkipPause(history: seq<Happening>)
    ensures var n := Since(history, Skip) + 1;
            Answer(After(history), Skip) == (if n % UINT <= 64 then GoOn else Pause(1))
  {
    AfterHistory(history);
    WrapNext(Since(history, Skip));
  }

  // ---------- What a row of errors costs ----------

  predicate Errors(history: seq<Happening>) {
    forall i :: 0 <= i < |history| ==> history[i].Skip? || history[i].Resource?
  }

  // The milliseconds paused over `history`, after `before`.
  function Paused(before: seq<Happening>, history: seq<Happening>): nat
    decreases |history|
  {
    if history == [] then 0
    else
      var reply := Answer(After(before), history[0]);
      (if reply.Pause? then reply.ms else 0) + Paused(before + [history[0]], history[1..])
  }

  // How many of the connection errors numbered from+1 .. from+n are free.
  function Free(from: nat, n: nat): nat
    decreases n
  {
    if n == 0 then 0 else (if IsFree(from + 1) then 1 else 0) + Free(from + 1, n - 1)
  }

  predicate IsFree(k: nat) {
    k % UINT <= FREE_SKIPS
  }

  function Skips(history: seq<Happening>): nat {
    if history == [] then 0 else (if history[0].Skip? then 1 else 0) + Skips(history[1..])
  }

  lemma PausesOrFree(before: seq<Happening>, h: Happening)
    requires h.Skip? || h.Resource?
    ensures var reply := Answer(After(before), h);
            && (reply.Pause? ==> reply.ms >= 1)
            && (!reply.Pause? ==> h.Skip? && IsFree(Since(before, Skip) + 1))
  {
    AfterHistory(before);
    SkipPause(before);
  }

  // A row of errors pauses at least a millisecond for each that is not a free skip.
  lemma {:induction false} RowCosts(before: seq<Happening>, history: seq<Happening>)
    requires Errors(history)
    ensures Paused(before, history) + Free(Since(before, Skip), Skips(history)) >= |history|
    decreases |history|
  {
    if history != [] {
      var h := history[0];
      var next := before + [h];
      assert next[..|next| - 1] == before;
      hide IsFree, After;
      RowCosts(next, history[1..]);
      PausesOrFree(before, h);
    }
  }

  // The wrap-around is exact: 64 skips are free in each 2^32, and the one at which the counter wraps.
  lemma {:induction false} FreeSkips(n: nat)
    ensures Free(0, n) == 65 * (n / UINT) + (if n % UINT < 64 then n % UINT else 64)
  {
    if n > 0 {
      FreeSkips(n - 1);
      FreeLast(0, n);
      NextDivMod(n - 1);
    }
  }

  lemma NextDivMod(m: nat)
    ensures m % UINT == UINT - 1 ==> (m + 1) / UINT == m / UINT + 1 && (m + 1) % UINT == 0
    ensures m % UINT != UINT - 1 ==> (m + 1) / UINT == m / UINT && (m + 1) % UINT == m % UINT + 1
  {
  }

  lemma {:induction false} FreeLast(from: nat, n: nat)
    requires n > 0
    ensures Free(from, n) == Free(from, n - 1) + (if IsFree(from + n) then 1 else 0)
    decreases n
  {
    hide IsFree;
    if n > 1 {
      FreeLast(from + 1, n - 1);
    }
  }

  // So n errors in a row after a success, fewer than 2^32 of them, pause at least n - 64 ms: a
  // listener that only fails does not spin.
  lemma {:induction false} NoSpin(before: seq<Happening>, history: seq<Happening>)
    requires Errors(history) && |history| < UINT
    requires before == [] || before[|before| - 1].Success?
    ensures Paused(before, history) >= |history| - 64
  {
    RowCosts(before, history);
    FreeSkips(Skips(history));
    SkipsBound(history);
  }

  lemma {:induction false} SkipsBound(history: seq<Happening>)
    ensures Skips(history) <= |history|
  {
    if history != [] {
      SkipsBound(history[1..]);
    }
  }
}

/**
 The owner thread of reactor_udp.h: it runs the loop, reports an exception that escapes a handler
 and runs the loop again, until the loop is stopped or out of work; then it releases the loop.
 */
module UdpOwner {
  // A handler in the queue, by what it does; ExternalStop marks the point at which another thread
  // calls io_context::stop().
  datatype Job = Job(stops: bool, throws: bool) | ExternalStop

  class Owner {
    var queue: seq<Job>
    var stopped: bool
    var loops: int
    var ran: seq<Job>              // the handlers run, in order
    var reports: nat               // calls of report_callback_exception
    var releases: nat              // calls of release_loop

    constructor (jobs: seq<Job>, claims: int)
      ensures queue == jobs && !stopped && loops == claims && ran == [] && reports == 0 && releases == 0
    {
      queue, stopped, loops, ran, reports, releases := jobs, false, claims, [], 0, 0;
    }

    // io_context::run(): handlers until the loop is stopped, out of work, or one throws.
    method Run() returns (threw: bool, ghost done: seq<Job>)
      requires !stopped
      modifies `queue, `stopped, `ran
      ensures ran == old(ran) + done && Progress(old(queue), done, queue, stopped)
      ensures !threw ==> Throws(done) == 0 && (stopped || queue == [])
      ensures threw ==> Throws(done) == 1 && |queue| < |old(queue)|
    {
      done := [];
      while !stopped && queue != []
        invariant ran == old(ran) + done && Throws(done) == 0
        invariant Progress(old(queue), done, queue, stopped)
        invariant |queue| <= |old(queue)|
        decreases |queue|
      {
        var job := queue[0];
        ProgressNext(old(queue), done, queue);
        queue := queue[1..];
        if job.ExternalStop? {
          stopped := true;
        } else {
          ran := ran + [job];
          ThrowsConcat(done, [job]);
          done := done + [job];
          if job.stops {
            stopped := true;
          }
          if job.throws {
            return true, done;
          }
        }
      }
      return false, done;
    }

    // The thread function of UdpServer::start: the handlers run are exactly those up to and including
    // the first that stops the loop, each exception among them is reported once, a stopped loop is
    // not run again, and the claim is released exactly once.
    method OwnerThread()
      modifies this
      ensures !old(stopped) ==> ran == old(ran) + Executed(old(queue)) && stopped == Stops(old(queue))
      ensures !old(stopped) ==> reports == old(reports) + |ThrowingAt(Executed(old(queue)))|
      ensures old(stopped) ==> ran == old(ran) && reports == old(reports) && stopped
      ensures releases == old(releases) + 1 && loops == old(loops) - 1
    {
      hide Progress, Executed, Throws;
      ghost var all: seq<Job> := [];
      ProgressStart(queue);
      while !stopped
        invariant ran == old(ran) + all && reports == old(reports) + Throws(all)
        invariant old(stopped) ==> stopped && all == []
        invariant !old(stopped) ==> Progress(old(queue), all, queue, stopped)
        invariant releases == old(releases) && loops == old(loops)
        decreases |queue|
      {
        ghost var left := queue;
        var threw, done := Run();
        ThrowsConcat(all, done);
        ProgressThen(old(queue), all, left, done, queue, stopped);
        all := all + done;
        if !threw {
          break;
        }
        reports := reports + 1;
      }
      if !old(stopped) {
        ProgressDone(old(queue), all, queue, stopped);
        ThrowsAreThePlaces(all);
      }
      loops := loops - 1;
      releases := releases + 1;
    }
  }

  // `done` has been run of `start`; `queue` is left, unless the loop was stopped.
  ghost predicate Progress(start: seq<Job>, done: seq<Job>, queue: seq<Job>, stopped: bool) {
    if stopped then Executed(start) == done && Stops(start)
    else Executed(start) == done + Executed(queue) && Stops(start) == Stops(queue)
  }

  lemma ProgressNext(start: seq<Job>, done: seq<Job>, queue: seq<Job>)
    requires Progress(start, done, queue, false) && queue != []
    ensures queue[0].ExternalStop? ==> Progress(start, done, queue[1..], true)
    ensures queue[0].Job? ==> Progress(start, done + [queue[0]], queue[1..], queue[0].stops)
  {
    if queue[0].Job? && !queue[0].stops {
      assert done + Executed(queue) == done + [queue[0]] + Executed(queue[1..]);
    }
  }

  lemma ProgressStart(queue: seq<Job>)
    ensures Progress(queue, [], queue, false) && Throws([]) == 0
  {
    assert [] + Executed(queue) == Executed(queue);
  }

  lemma ProgressDone(start: seq<Job>, done: seq<Job>, queue: seq<Job>, stopped: bool)
    requires Progress(start, done, queue, stopped) && (stopped || queue == [])
    ensures Executed(start) == done && Stops(start) == stopped
  {
    assert done + [] == done;
  }

  lemma ProgressThen(start: seq<Job>, a: seq<Job>, mid: seq<Job>, b: seq<Job>, queue: seq<Job>, stopped: bool)
    requires Progress(start, a, mid, false) && Progress(mid, b, queue, stopped)
    ensures Progress(start, a + b, queue, stopped)
  {
    assert a + (b + Executed(queue)) == a + b + Executed(queue);
  }

  // What a queue runs when nothing stops it from outside its own jobs.
  function Executed(queue: seq<Job>): seq<Job> {
    if queue == [] || queue[0].ExternalStop? then []
    else if queue[0].stops then [queue[0]]
    else [queue[0]] + Executed(queue[1..])
  }

  function Stops(queue: seq<Job>): bool {
    queue != [] && (queue[0].ExternalStop? || queue[0].stops || Stops(queue[1..]))
  }

  function Throws(jobs: seq<Job>): nat {
    if jobs == [] then 0 else (if jobs[0].Job? && jobs[0].throws then 1 else 0) + Throws(jobs[1..])
  }

  // The places of the handlers that throw.
  function ThrowingAt(jobs: seq<Job>): set<nat> {
    set i: nat | i < |jobs| && jobs[i].Job? && jobs[i].throws
  }

  lemma {:induction false} ThrowsAreThePlaces(jobs: seq<Job>)
    ensures Throws(jobs) == |ThrowingAt(jobs)|
  {
    if jobs == [] {
      assert ThrowingAt(jobs) == {};
    } else {
      var last := |jobs| - 1;
      ThrowsAreThePlaces(jobs[..last]);
      assert jobs == jobs[..last] + [jobs[last]];
      ThrowsConcat(jobs[..last], [jobs[last]]);
      if jobs[last].Job? && jobs[last].throws {
        assert ThrowingAt(jobs) == ThrowingAt(jobs[..last]) + {last};
      } else {
        assert ThrowingAt(jobs) == ThrowingAt(jobs[..last]);
      }
    }
  }

  lemma {:induction false} ThrowsConcat(a: seq<Job>, b: seq<Job>)
    ensures Throws(a + b) == Throws(a) + Throws(b)
  {
    if a == [] {
      assert a + b == b;
    } else {
      assert (a + b)[1..] == a[1..] + b;
      ThrowsConcat(a[1..], b);
    }
  }

  // The handlers run are the queue up to the first one that stops the loop, and all of it when none does.
  lemma {:induction false} ExecutedIsThePrefix(queue: seq<Job>) returns (k: nat)
    ensures k <= |queue| && Executed(queue) == queue[..k]
    ensures forall i :: 0 <= i < k - 1 ==> queue[i].Job? && !queue[i].stops
    ensures k > 0 ==> queue[k - 1].Job?
    ensures k == |queue| || queue[k].ExternalStop? || (k > 0 && queue[k - 1].stops)
    ensures Stops(queue) <==> exists i :: 0 <= i < |queue| && (queue[i].ExternalStop? || queue[i].stops)
  {
    if queue == [] {
      k := 0;
    } else if queue[0].ExternalStop? {
      k := 0;
    } else if queue[0].stops {
      k := 1;
    } else {
      var n := ExecutedIsThePrefix(queue[1..]);
      k := n + 1;
      assert queue[..k] == [queue[0]] + queue[1..][..n];
      if Stops(queue) {
        var i :| 0 <= i < |queue[1..]| && (queue[1..][i].ExternalStop? || queue[1..][i].stops);
        assert queue[i + 1] == queue[1..][i];
      } else {
        forall i | 0 <= i < |queue| ensures !queue[i].ExternalStop? && !queue[i].stops {
          if i > 0 {
            assert queue[i] == queue[1..][i - 1];
          }
        }
      }
    }
  }
}

/**
 What AbortList promises, on sequences: a list whose nodes are added at the front, removed
 anywhere, and walked by a cursor that callbacks may move under the walk. Callbacks add and
 remove nodes and start nested walks, in any combination: a script gives, for each visit, the
 operations its callback performs, so every terminating behaviour of every callback is a script.
 */
module AbortWalk {
  import opened Basics

  datatype ListState<T(==)> = ListState(nodes: seq<T>, cursor: Option<T>)

  // What one callback does: its operations in order.
  datatype Script<T(==)> =
    | End
    | AddOp(node: T, rest: Script<T>)     // skipped on a tracked node: add() demands an untracked one
    | RemoveOp(node: T, rest: Script<T>)
    | WalkOp(body: seq<Script<T>>, rest: Script<T>)   // a nested each(): body[k] is the callback of its k-th visit

  datatype Event<T(==)> = Added(node: T) | Removed(node: T) | Visit(node: T, depth: nat)

  // `kept`: no walk that the callbacks started removed the node saved around it. Walks nested deeper
  // in those may do what they like to each other.
  datatype Outcome<T(==)> = Outcome(state: ListState<T>, trace: seq<Event<T>>, kept: bool)

  // ---------- Lists ----------

  ghost predicate Distinct<T>(nodes: seq<T>) {
    forall i, j :: 0 <= i < j < |nodes| ==> nodes[i] != nodes[j]
  }

  function IndexOf<T(==)>(nodes: seq<T>, n: T): (i: nat)
    requires n in nodes
    ensures i < |nodes| && nodes[i] == n
  {
    if nodes[0] == n then 0 else 1 + IndexOf(nodes[1..], n)
  }

  // nodes[i..] for the node at i; a removed node keeps no links, so its suffix is itself.
  function From<T(==)>(nodes: seq<T>, cursor: Option<T>): (rest: seq<T>)
    ensures cursor.None? <==> rest == []
    ensures cursor.Some? ==> rest[0] == cursor.value
  {
    if cursor.None? then []
    else if cursor.value in nodes then nodes[IndexOf(nodes, cursor.value)..]
    else [cursor.value]
  }

  function Head<T(==)>(nodes: seq<T>): Option<T> {
    if nodes == [] then None else Some(nodes[0])
  }

  function NextOf<T(==)>(nodes: seq<T>, n: T): Option<T> {
    Head(From(nodes, Some(n))[1..])
  }

  function Without<T(==)>(nodes: seq<T>, gone: set<T>): (kept: seq<T>)
    ensures forall n :: n in kept ==> n in nodes && n !in gone
    ensures forall n :: n in nodes && n !in gone ==> n in kept
  {
    if nodes == [] then []
    else (if nodes[0] in gone then [] else [nodes[0]]) + Without(nodes[1..], gone)
  }

  function AddNode<T(==)>(s: ListState<T>, n: T): ListState<T> {
    s.(nodes := [n] + s.nodes)
  }

  function RemoveNode<T(==)>(s: ListState<T>, n: T): ListState<T> {
    if n !in s.nodes then s
    else ListState(Without(s.nodes, {n}), if s.cursor == Some(n) then NextOf(s.nodes, n) else s.cursor)
  }

  lemma {:induction false} IndexIs<T>(nodes: seq<T>, i: nat)
    requires Distinct(nodes) && i < |nodes|
    ensures IndexOf(nodes, nodes[i]) == i
  {
    if i > 0 {
      assert nodes[1..][i - 1] == nodes[i];
      IndexIs(nodes[1..], i - 1);
    }
  }

  lemma FromNext<T>(nodes: seq<T>, n: T)
    requires Distinct(nodes)
    ensures From(nodes, NextOf(nodes, n)) == From(nodes, Some(n))[1..]
  {
    if n in nodes && IndexOf(nodes, n) + 1 < |nodes| {
      IndexIs(nodes, IndexOf(nodes, n) + 1);
    }
  }

  lemma {:induction false} WithoutDistinct<T>(nodes: seq<T>, gone: set<T>)
    requires Distinct(nodes)
    ensures Distinct(Without(nodes, gone)) && |Without(nodes, gone)| <= |nodes|
  {
    if nodes != [] {
      WithoutDistinct(nodes[1..], gone);
      assert forall n :: n in nodes[1..] ==> n != nodes[0];
    }
  }

  // ---------- each(), as the code runs it ----------

  function Before<T(==)>(r: Outcome<T>, q: Outcome<T>): Outcome<T> {
    Outcome(q.state, r.trace + q.trace, r.kept && q.kept)
  }

  function Run<T>(s: ListState<T>, script: Script<T>, depth: nat): (r: Outcome<T>)
    requires Distinct(s.nodes)
    ensures Distinct(r.state.nodes)
    decreases script
  {
    match script
    case End => Outcome(s, [], true)
    case AddOp(n, rest) =>
      if n in s.nodes then Run(s, rest, depth)
      else Before(Outcome(AddNode(s, n), [Added(n)], true), Run(AddNode(s, n), rest, depth))
    case RemoveOp(n, rest) =>
      WithoutDistinct(s.nodes, {n});
      if n !in s.nodes then Run(s, rest, depth)
      else Before(Outcome(RemoveNode(s, n), [Removed(n)], true), Run(RemoveNode(s, n), rest, depth))
    case WalkOp(body, rest) =>
      var r := Each(s, body, depth + 1);
      Before(r.(kept := Spares(r.trace, s.cursor)), Run(r.state, rest, depth))
  }

  // The walk with this trace did not remove the node its caller had saved.
  predicate Spares<T(==)>(trace: seq<Event<T>>, saved: Option<T>) {
    saved.Some? ==> saved.value !in RemovedIn(trace)
  }

  // One turn of the loop: step the cursor past the node, then call back. Past the script, callbacks do nothing.
  function Turn<T>(s: ListState<T>, body: seq<Script<T>>, k: nat, depth: nat): (r: Outcome<T>)
    requires Distinct(s.nodes) && s.cursor.Some?
    ensures Distinct(r.state.nodes)
    ensures k >= |body| ==> |From(r.state.nodes, r.state.cursor)| < |From(s.nodes, s.cursor)|
    decreases body, 0
  {
    FromNext(s.nodes, s.cursor.value);
    var s' := s.(cursor := NextOf(s.nodes, s.cursor.value));
    var r := if k < |body| then Run(s', body[k], depth) else Outcome(s', [], true);
    r.(trace := [Visit(s.cursor.value, depth)] + r.trace)
  }

  function Loop<T>(s: ListState<T>, body: seq<Script<T>>, k: nat, depth: nat): (r: Outcome<T>)
    requires Distinct(s.nodes)
    ensures Distinct(r.state.nodes) && r.state.cursor == None
    decreases body, 1, if k < |body| then |body| - k else 0, |From(s.nodes, s.cursor)|
  {
    if s.cursor == None then Outcome(s, [], true)
    else
      var r := Turn(s, body, k, depth);
      Before(r, Loop(r.state, body, k + 1, depth))
  }

  function Each<T>(s: ListState<T>, body: seq<Script<T>>, depth: nat): (r: Outcome<T>)
    requires Distinct(s.nodes)
    ensures Distinct(r.state.nodes) && r.state.cursor == s.cursor
    decreases body, 2
  {
    var r := Loop(s.(cursor := Head(s.nodes)), body, 0, depth);
    r.(state := r.state.(cursor := s.cursor))
  }

  function RemovedIn<T(==)>(trace: seq<Event<T>>): set<T> {
    set e | e in trace && e.Removed? :: e.node
  }

  // ---------- Lists under removal ----------

  ghost predicate IsSuffix<T>(w: seq<T>, nodes: seq<T>) {
    |w| <= |nodes| && nodes[|nodes| - |w|..] == w
  }

  lemma {:induction false} WithoutConcat<T>(a: seq<T>, b: seq<T>, gone: set<T>)
    ensures Without(a + b, gone) == Without(a, gone) + Without(b, gone)
  {
    if a == [] {
      assert a + b == b;
    } else {
      assert (a + b)[1..] == a[1..] + b;
      WithoutConcat(a[1..], b, gone);
    }
  }

  lemma {:induction false} WithoutTwice<T>(nodes: seq<T>, a: set<T>, b: set<T>)
    ensures Without(Without(nodes, a), b) == Without(nodes, a + b)
  {
    if nodes != [] {
      WithoutTwice(nodes[1..], a, b);
      var first := if nodes[0] in a then [] else [nodes[0]];
      WithoutConcat(first, Without(nodes[1..], a), b);
      assert nodes[0] in a ==> Without(first, b) == [];
      assert nodes[0] !in a ==> Without(first, b) == if nodes[0] in b then [] else [nodes[0]];
    }
  }

  lemma {:induction false} WithoutAbsent<T>(nodes: seq<T>, gone: set<T>)
    requires forall n :: n in nodes ==> n !in gone
    ensures Without(nodes, gone) == nodes
  {
    if nodes != [] {
      WithoutAbsent(nodes[1..], gone);
    }
  }

  lemma WithoutSuffix<T>(w: seq<T>, nodes: seq<T>, gone: set<T>)
    requires IsSuffix(w, nodes)
    ensures IsSuffix(Without(w, gone), Without(nodes, gone))
  {
    var front := nodes[..|nodes| - |w|];
    assert nodes == front + w;
    WithoutConcat(front, w, gone);
  }

  lemma FromSuffix<T>(w: seq<T>, nodes: seq<T>)
    requires Distinct(nodes) && IsSuffix(w, nodes)
    ensures From(nodes, Head(w)) == w
  {
    if w != [] {
      IndexIs(nodes, |nodes| - |w|);
    }
  }

  lemma RemovedInConcat<T>(a: seq<Event<T>>, b: seq<Event<T>>)
    ensures RemovedIn(a + b) == RemovedIn(a) + RemovedIn(b)
  {
  }

  lemma NoneRemoved<T>(nodes: seq<T>, trace: seq<Event<T>>)
    requires forall e :: e in trace ==> !e.Removed?
    ensures Without(nodes, RemovedIn(trace)) == nodes
  {
    WithoutAbsent(nodes, RemovedIn(trace));
  }

  // ---------- What a callback leaves of the list ----------

  // The nodes of `before` that were not removed are the end of `r`'s list, in order.
  ghost predicate Ordered<T>(before: seq<T>, r: Outcome<T>) {
    IsSuffix(Without(before, RemovedIn(r.trace)), r.state.nodes)
  }

  lemma OrderedThen<T>(before: seq<T>, r: Outcome<T>, q: Outcome<T>)
    requires Ordered(before, r) && Ordered(r.state.nodes, q)
    ensures Ordered(before, Before(r, q))
  {
    var a, b := RemovedIn(r.trace), RemovedIn(q.trace);
    RemovedInConcat(r.trace, q.trace);
    WithoutTwice(before, a, b);
    WithoutSuffix(Without(before, a), r.state.nodes, b);
  }

  lemma {:induction false} RunOrdered<T>(s: ListState<T>, script: Script<T>, depth: nat)
    requires Distinct(s.nodes)
    ensures Ordered(s.nodes, Run(s, script, depth))
    decreases script
  {
    match script
    case End => NoneRemoved<T>(s.nodes, []);
    case AddOp(n, rest) =>
      if n in s.nodes {
        RunOrdered(s, rest, depth);
      } else {
        NoneRemoved(s.nodes, [Added(n)]);
        RunOrdered(AddNode(s, n), rest, depth);
        OrderedThen(s.nodes, Outcome(AddNode(s, n), [Added(n)], true), Run(AddNode(s, n), rest, depth));
      }
    case RemoveOp(n, rest) =>
      if n !in s.nodes {
        RunOrdered(s, rest, depth);
      } else {
        WithoutDistinct(s.nodes, {n});
        RunOrdered(RemoveNode(s, n), rest, depth);
        assert RemovedIn([Removed(n)]) == {n};
        OrderedThen(s.nodes, Outcome(RemoveNode(s, n), [Removed(n)], true), Run(RemoveNode(s, n), rest, depth));
      }
    case WalkOp(body, rest) =>
      var r := Each(s, body, depth + 1);
      LoopOrdered(s.(cursor := Head(s.nodes)), body, 0, depth + 1);
      assert Ordered(s.nodes, r);
      hide Each, Ordered;
      RunOrdered(r.state, rest, depth);
      OrderedThen(s.nodes, r.(kept := Spares(r.trace, s.cursor)), Run(r.state, rest, depth));
  }

  lemma TurnOrdered<T>(s: ListState<T>, body: seq<Script<T>>, k: nat, depth: nat)
    requires Distinct(s.nodes) && s.cursor.Some?
    ensures Ordered(s.nodes, Turn(s, body, k, depth))
    decreases body, 0
  {
    var s' := s.(cursor := NextOf(s.nodes, s.cursor.value));
    var visit: seq<Event<T>> := [Visit(s.cursor.value, depth)];
    if k < |body| {
      RunOrdered(s', body[k], depth);
      assert RemovedIn(visit + Run(s', body[k], depth).trace) == RemovedIn(Run(s', body[k], depth).trace);
    } else {
      NoneRemoved(s.nodes, visit + []);
    }
  }

  lemma {:induction false} LoopOrdered<T>(s: ListState<T>, body: seq<Script<T>>, k: nat, depth: nat)
    requires Distinct(s.nodes)
    ensures Ordered(s.nodes, Loop(s, body, k, depth))
    decreases body, 1, if k < |body| then |body| - k else 0, |From(s.nodes, s.cursor)|
  {
    hide Turn, Run;
    if s.cursor.None? {
      NoneRemoved<T>(s.nodes, []);
    } else {
      hide Ordered;
      var r := Turn(s, body, k, depth);
      TurnOrdered(s, body, k, depth);
      LoopOrdered(r.state, body, k + 1, depth);
      OrderedThen(s.nodes, r, Loop(r.state, body, k + 1, depth));
    }
  }

  // ---------- What the trace says of the list ----------

  function Members<T(==)>(nodes: seq<T>): set<T> {
    set n | n in nodes
  }

  // Who is in the list after the events of `trace`, if `members` were before.
  function Replay<T(==)>(members: set<T>, trace: seq<Event<T>>): set<T>
    decreases |trace|
  {
    if trace == [] then members
    else match trace[0]
      case Added(n) => Replay(members + {n}, trace[1..])
      case Removed(n) => Replay(members - {n}, trace[1..])
      case Visit(_, _) => Replay(members, trace[1..])
  }

  lemma {:induction false} ReplayConcat<T>(members: set<T>, a: seq<Event<T>>, b: seq<Event<T>>)
    ensures Replay(members, a + b) == Replay(Replay(members, a), b)
    decreases |a|
  {
    if a == [] {
      assert a + b == b;
    } else {
      assert (a + b)[1..] == a[1..] + b;
      match a[0]
      case Added(n) => ReplayConcat(members + {n}, a[1..], b);
      case Removed(n) => ReplayConcat(members - {n}, a[1..], b);
      case Visit(_, _) => ReplayConcat(members, a[1..], b);
    }
  }

  // The list holds exactly what the trace leaves of `before`.
  ghost predicate Accounts<T>(before: seq<T>, r: Outcome<T>) {
    Members(r.state.nodes) == Replay(Members(before), r.trace)
  }

  lemma AccountsThen<T>(before: seq<T>, r: Outcome<T>, q: Outcome<T>)
    requires Accounts(before, r) && Accounts(r.state.nodes, q)
    ensures Accounts(before, Before(r, q))
  {
    ReplayConcat(Members(before), r.trace, q.trace);
  }

  lemma OpAccounts<T>(s: ListState<T>, n: T)
    ensures n !in s.nodes ==> Accounts(s.nodes, Outcome(AddNode(s, n), [Added(n)], true))
    ensures n in s.nodes ==> Accounts(s.nodes, Outcome(RemoveNode(s, n), [Removed(n)], true))
  {
    var added: seq<Event<T>>, removed: seq<Event<T>> := [Added(n)], [Removed(n)];
    assert added[1..] == [] && removed[1..] == [];
    assert n !in s.nodes ==> Members(AddNode(s, n).nodes) == Members(s.nodes) + {n};
    assert n in s.nodes ==> Members(RemoveNode(s, n).nodes) == Members(s.nodes) - {n};
  }

  // For any callbacks at any depth, the list after a callback is the list before with the Added and
  // Removed events of its trace replayed over it.
  lemma {:induction false} RunAccounts<T>(s: ListState<T>, script: Script<T>, depth: nat)
    requires Distinct(s.nodes)
    ensures Accounts(s.nodes, Run(s, script, depth))
    decreases script
  {
    hide Accounts;
    match script
    case End => EmptyAccounts(s);
    case AddOp(n, rest) =>
      if n in s.nodes {
        RunAccounts(s, rest, depth);
      } else {
        OpAccounts(s, n);
        RunAccounts(AddNode(s, n), rest, depth);
        AccountsThen(s.nodes, Outcome(AddNode(s, n), [Added(n)], true), Run(AddNode(s, n), rest, depth));
      }
    case RemoveOp(n, rest) =>
      if n !in s.nodes {
        RunAccounts(s, rest, depth);
      } else {
        WithoutDistinct(s.nodes, {n});
        OpAccounts(s, n);
        RunAccounts(RemoveNode(s, n), rest, depth);
        AccountsThen(s.nodes, Outcome(RemoveNode(s, n), [Removed(n)], true), Run(RemoveNode(s, n), rest, depth));
      }
    case WalkOp(body, rest) =>
      var r := Each(s, body, depth + 1);
      var kept := r.(kept := Spares(r.trace, s.cursor));
      EachAccounts(s, body, depth + 1);
      SameAccount(s.nodes, r, kept);
      RunAccounts(r.state, rest, depth);
      AccountsThen(s.nodes, kept, Run(r.state, rest, depth));
  }

  lemma EmptyAccounts<T>(s: ListState<T>)
    ensures Accounts(s.nodes, Outcome(s, [], true))
  {
  }

  lemma SameAccount<T>(before: seq<T>, r: Outcome<T>, q: Outcome<T>)
    requires Accounts(before, r) && q.trace == r.trace && q.state.nodes == r.state.nodes
    ensures Accounts(before, q)
  {
  }

  lemma TurnAccounts<T>(s: ListState<T>, body: seq<Script<T>>, k: nat, depth: nat)
    requires Distinct(s.nodes) && s.cursor.Some?
    ensures Accounts(s.nodes, Turn(s, body, k, depth))
    decreases body, 0
  {
    var s' := s.(cursor := NextOf(s.nodes, s.cursor.value));
    var visit: seq<Event<T>> := [Visit(s.cursor.value, depth)];
    if k < |body| {
      RunAccounts(s', body[k], depth);
      assert (visit + Run(s', body[k], depth).trace)[1..] == Run(s', body[k], depth).trace;
    } else {
      assert (visit + [])[1..] == [];
    }
  }

  lemma {:induction false} LoopAccounts<T>(s: ListState<T>, body: seq<Script<T>>, k: nat, depth: nat)
    requires Distinct(s.nodes)
    ensures Accounts(s.nodes, Loop(s, body, k, depth))
    decreases body, 1, if k < |body| then |body| - k else 0, |From(s.nodes, s.cursor)|
  {
    hide Accounts, Turn, Run;
    if s.cursor.None? {
      EmptyAccounts(s);
    } else {
      var r := Turn(s, body, k, depth);
      TurnAccounts(s, body, k, depth);
      LoopAccounts(r.state, body, k + 1, depth);
      AccountsThen(s.nodes, r, Loop(r.state, body, k + 1, depth));
    }
  }

  lemma EachAccounts<T>(s: ListState<T>, body: seq<Script<T>>, depth: nat)
    requires Distinct(s.nodes)
    ensures Accounts(s.nodes, Each(s, body, depth))
    decreases body, 2
  {
    LoopAccounts(s.(cursor := Head(s.nodes)), body, 0, depth);
  }

  // The cursor is at no node or at a tracked one.
  ghost predicate Tracked<T>(s: ListState<T>) {
    s.cursor.Some? ==> s.cursor.value in s.nodes
  }

  // The walk goes on exactly where it was: at the first pending node that was not removed.
  ghost predicate Resumes<T>(s: ListState<T>, r: Outcome<T>) {
    Tracked(r.state) && From(r.state.nodes, r.state.cursor) == Without(From(s.nodes, s.cursor), RemovedIn(r.trace))
  }

  lemma HeadResumes<T>(s: ListState<T>, r: Outcome<T>)
    requires Distinct(s.nodes) && Tracked(s) && Distinct(r.state.nodes) && Ordered(s.nodes, r)
    requires r.state.cursor == Head(Without(From(s.nodes, s.cursor), RemovedIn(r.trace)))
    ensures Resumes(s, r)
  {
    hide Without;
    var rest := From(s.nodes, s.cursor);
    var gone := RemovedIn(r.trace);
    WithoutSuffix(rest, s.nodes, gone);
    assert IsSuffix(Without(rest, gone), r.state.nodes);
    FromSuffix(Without(rest, gone), r.state.nodes);
  }

  lemma AddResumes<T>(s: ListState<T>, n: T)
    requires Distinct(s.nodes) && Tracked(s) && n !in s.nodes
    ensures Resumes(s, Outcome(AddNode(s, n), [Added(n)], true))
  {
    NoneRemoved(s.nodes, [Added(n)]);
    NoneRemoved(From(s.nodes, s.cursor), [Added(n)]);
    HeadResumes(s, Outcome(AddNode(s, n), [Added(n)], true));
  }

  lemma RemoveResumes<T>(s: ListState<T>, n: T)
    requires Distinct(s.nodes) && Tracked(s) && n in s.nodes
    ensures Resumes(s, Outcome(RemoveNode(s, n), [Removed(n)], true))
  {
    var rest := From(s.nodes, s.cursor);
    assert RemovedIn([Removed(n)]) == {n};
    WithoutDistinct(s.nodes, {n});
    if s.cursor == Some(n) {
      assert forall i :: 0 < i < |rest| ==> rest[i] != n;
      WithoutAbsent(rest[1..], {n});
    }
    HeadResumes(s, Outcome(RemoveNode(s, n), [Removed(n)], true));
  }

  lemma ResumesThen<T>(s: ListState<T>, r: Outcome<T>, q: Outcome<T>)
    requires Resumes(s, r) && Resumes(r.state, q)
    ensures Resumes(s, Before(r, q))
  {
    RemovedInConcat(r.trace, q.trace);
    WithoutTwice(From(s.nodes, s.cursor), RemovedIn(r.trace), RemovedIn(q.trace));
  }

  // A nested walk hands the cursor back in place if and only if it did not remove the saved node:
  // remove() repairs the cursor in use, not the ones saved by the walks around it.
  lemma NestedWalkResumes<T>(s: ListState<T>, body: seq<Script<T>>, depth: nat)
    requires Distinct(s.nodes) && Tracked(s)
    ensures Resumes(s, Each(s, body, depth)) <==> Spares(Each(s, body, depth).trace, s.cursor)
  {
    var r := Each(s, body, depth);
    var rest := From(s.nodes, s.cursor);
    LoopOrdered(s.(cursor := Head(s.nodes)), body, 0, depth);
    if Spares(r.trace, s.cursor) {
      HeadResumes(s, r);
    } else {
      assert From(r.state.nodes, r.state.cursor)[0] == s.cursor.value;
      assert s.cursor.value !in Without(rest, RemovedIn(r.trace));
    }
  }

  // The script removes node n somewhere, in its own operations or in walks it starts.
  predicate Removes<T(==)>(script: Script<T>, n: T) {
    match script
    case End => false
    case AddOp(_, rest) => Removes(rest, n)
    case RemoveOp(m, rest) => m == n || Removes(rest, n)
    case WalkOp(body, rest) => (exists k :: 0 <= k < |body| && Removes(body[k], n)) || Removes(rest, n)
  }

  lemma {:induction false} RunSpares<T>(s: ListState<T>, script: Script<T>, depth: nat, n: T)
    requires Distinct(s.nodes) && !Removes(script, n)
    ensures Removed(n) !in Run(s, script, depth).trace
    decreases script
  {
    match script
    case End =>
    case AddOp(m, rest) => RunSpares(if m in s.nodes then s else AddNode(s, m), rest, depth, n);
    case RemoveOp(m, rest) =>
      WithoutDistinct(s.nodes, {m});
      RunSpares(RemoveNode(s, m), rest, depth, n);
    case WalkOp(body, rest) =>
      LoopSpares(s.(cursor := Head(s.nodes)), body, 0, depth + 1, n);
      RunSpares(Each(s, body, depth + 1).state, rest, depth, n);
  }

  lemma {:induction false} LoopSpares<T>(s: ListState<T>, body: seq<Script<T>>, k: nat, depth: nat, n: T)
    requires Distinct(s.nodes) && forall i :: 0 <= i < |body| ==> !Removes(body[i], n)
    ensures Removed(n) !in Loop(s, body, k, depth).trace
    decreases body, 1, if k < |body| then |body| - k else 0, |From(s.nodes, s.cursor)|
  {
    if s.cursor.Some? {
      if k < |body| {
        RunSpares(s.(cursor := NextOf(s.nodes, s.cursor.value)), body[k], depth, n);
      }
      LoopSpares(Turn(s, body, k, depth).state, body, k + 1, depth, n);
    }
  }

  // What a caller can see beforehand: a nested walk whose callbacks nowhere remove the saved node, at
  // any depth, hands the cursor back in place.
  lemma SparingWalkResumes<T>(s: ListState<T>, body: seq<Script<T>>, depth: nat)
    requires Distinct(s.nodes) && Tracked(s)
    requires s.cursor.Some? ==> forall i :: 0 <= i < |body| ==> !Removes(body[i], s.cursor.value)
    ensures Resumes(s, Each(s, body, depth))
  {
    NestedWalkResumes(s, body, depth);
    if s.cursor.Some? {
      LoopSpares(s.(cursor := Head(s.nodes)), body, 0, depth, s.cursor.value);
    }
  }

  // However a callback adds, removes and nests, the walk goes on exactly where it was.
  lemma {:induction false} RunResumes<T>(s: ListState<T>, script: Script<T>, depth: nat)
    requires Distinct(s.nodes) && Tracked(s) && Run(s, script, depth).kept
    ensures Resumes(s, Run(s, script, depth))
    decreases script
  {
    match script
    case End => NoneRemoved<T>(From(s.nodes, s.cursor), []);
    case AddOp(n, rest) =>
      if n in s.nodes {
        RunResumes(s, rest, depth);
      } else {
        AddResumes(s, n);
        RunResumes(AddNode(s, n), rest, depth);
        ResumesThen(s, Outcome(AddNode(s, n), [Added(n)], true), Run(AddNode(s, n), rest, depth));
      }
    case RemoveOp(n, rest) =>
      if n !in s.nodes {
        RunResumes(s, rest, depth);
      } else {
        WithoutDistinct(s.nodes, {n});
        RemoveResumes(s, n);
        RunResumes(RemoveNode(s, n), rest, depth);
        ResumesThen(s, Outcome(RemoveNode(s, n), [Removed(n)], true), Run(RemoveNode(s, n), rest, depth));
      }
    case WalkOp(body, rest) =>
      var r := Each(s, body, depth + 1);
      NestedWalkResumes(s, body, depth + 1);
      RunResumes(r.state, rest, depth);
      ResumesThen(s, r.(kept := Spares(r.trace, s.cursor)), Run(r.state, rest, depth));
  }

  // ---------- The walk ----------

  // Walks nested in a callback visit at a greater depth.
  lemma {:induction false} RunIsDeeper<T>(s: ListState<T>, script: Script<T>, depth: nat)
    requires Distinct(s.nodes)
    ensures forall e :: e in Run(s, script, depth).trace && e.Visit? ==> e.depth > depth
    decreases script
  {
    match script
    case End =>
    case AddOp(n, rest) => RunIsDeeper(if n in s.nodes then s else AddNode(s, n), rest, depth);
    case RemoveOp(n, rest) =>
      WithoutDistinct(s.nodes, {n});
      RunIsDeeper(RemoveNode(s, n), rest, depth);
    case WalkOp(body, rest) =>
      LoopIsDeeper(s.(cursor := Head(s.nodes)), body, 0, depth + 1);
      RunIsDeeper(Each(s, body, depth + 1).state, rest, depth);
  }

  lemma {:induction false} LoopIsDeeper<T>(s: ListState<T>, body: seq<Script<T>>, k: nat, depth: nat)
    requires Distinct(s.nodes)
    ensures forall e :: e in Loop(s, body, k, depth).trace && e.Visit? ==> e.depth >= depth
    decreases body, 1, if k < |body| then |body| - k else 0, |From(s.nodes, s.cursor)|
  {
    if s.cursor.Some? {
      if k < |body| {
        RunIsDeeper(s.(cursor := NextOf(s.nodes, s.cursor.value)), body[k], depth);
      }
      LoopIsDeeper(Turn(s, body, k, depth).state, body, k + 1, depth);
    }
  }

  // A walk over `pending`: every visit is to a pending node that was neither visited nor removed
  // before, in list order; and no pending node is passed over unless it was removed.
  ghost predicate WalkTrace<T>(trace: seq<Event<T>>, pending: seq<T>, depth: nat) {
    && (forall i :: 0 <= i < |trace| && trace[i].Visit? && trace[i].depth == depth ==>
          && trace[i].node in pending
          && (forall j :: 0 <= j < i ==> trace[j] != trace[i] && trace[j] != Removed(trace[i].node)))
    && (forall i, j :: 0 <= i < j < |trace| && IsVisit(trace[i], depth) && IsVisit(trace[j], depth) ==>
          trace[i].node in pending && trace[j].node in pending &&
          IndexOf(pending, trace[i].node) < IndexOf(pending, trace[j].node))
    && (forall n :: n in pending ==> Visit(n, depth) in trace || Removed(n) in trace)
  }

  predicate IsVisit<T>(e: Event<T>, depth: nat) {
    e.Visit? && e.depth == depth
  }

  lemma {:induction false} WithoutKeepsOrder<T>(nodes: seq<T>, gone: set<T>, a: T, b: T)
    requires a in Without(nodes, gone) && b in Without(nodes, gone)
    requires IndexOf(Without(nodes, gone), a) < IndexOf(Without(nodes, gone), b)
    ensures IndexOf(nodes, a) < IndexOf(nodes, b)
  {
    var first, kept := nodes[0], Without(nodes[1..], gone);
    if first in gone {
      assert Without(nodes, gone) == kept;
      WithoutKeepsOrder(nodes[1..], gone, a, b);
    } else if first != a {
      assert Without(nodes, gone) == [first] + kept;
      IndexBehind(first, kept, a);
      IndexBehind(first, kept, b);
      WithoutKeepsOrder(nodes[1..], gone, a, b);
    }
  }

  lemma IndexBehind<T>(first: T, rest: seq<T>, n: T)
    requires n in [first] + rest
    ensures IndexOf([first] + rest, n) == if n == first then 0 else 1 + IndexOf(rest, n)
  {
    assert ([first] + rest)[1..] == rest;
  }

  lemma TurnThenWalk<T>(pending: seq<T>, calls: seq<Event<T>>, more: seq<Event<T>>, depth: nat)
    requires pending != [] && Distinct(pending)
    requires forall e :: e in calls && e.Visit? ==> e.depth > depth
    requires WalkTrace(more, Without(pending[1..], RemovedIn(calls)), depth)
    ensures WalkTrace([Visit(pending[0], depth)] + calls + more, pending, depth)
  {
    var first: seq<Event<T>> := [Visit(pending[0], depth)];
    var trace := first + calls + more;
    var left := Without(pending[1..], RemovedIn(calls));
    var m := 1 + |calls|;
    assert forall i :: m <= i < |trace| ==> trace[i] == more[i - m];
    assert forall i :: 1 <= i < m ==> trace[i] == calls[i - 1];
    forall i | 0 <= i < |trace| && IsVisit(trace[i], depth)
      ensures trace[i].node in pending
      ensures forall j :: 0 <= j < i ==> trace[j] != trace[i] && trace[j] != Removed(trace[i].node)
    {
      if i > 0 {
        assert i >= m && more[i - m].node in left;
        assert Removed(trace[i].node) !in calls;
        forall j | 0 <= j < i ensures trace[j] != trace[i] && trace[j] != Removed(trace[i].node) {
        }
      }
    }
    forall i, j | 0 <= i < j < |trace| && IsVisit(trace[i], depth) && IsVisit(trace[j], depth)
      ensures IndexOf(pending, trace[i].node) < IndexOf(pending, trace[j].node)
    {
      assert j >= m && more[j - m].node in left;
      if i > 0 {
        assert i >= m && more[i - m].node in left;
        WithoutKeepsOrder(pending[1..], RemovedIn(calls), trace[i].node, trace[j].node);
      }
    }
    forall n | n in pending ensures Visit(n, depth) in trace || Removed(n) in trace {
      if n == pending[0] {
        assert trace[0] == Visit(n, depth);
      } else if n in left {
        assert Visit(n, depth) in more || Removed(n) in more;
      } else {
        assert n in RemovedIn(calls);
      }
    }
  }

  lemma {:induction false} LoopWalks<T>(s: ListState<T>, body: seq<Script<T>>, k: nat, depth: nat)
    requires Distinct(s.nodes) && Tracked(s) && Loop(s, body, k, depth).kept
    ensures WalkTrace(Loop(s, body, k, depth).trace, From(s.nodes, s.cursor), depth)
    decreases |From(s.nodes, s.cursor)|
  {
    hide Run, Each, IndexOf, Without;
    if s.cursor.Some? {
      var node := s.cursor.value;
      var pending := From(s.nodes, s.cursor);
      FromNext(s.nodes, node);
      var s' := s.(cursor := NextOf(s.nodes, node));
      var r := Turn(s, body, k, depth);
      var calls := r.trace[1..];
      if k < |body| {
        RunResumes(s', body[k], depth);
        RunIsDeeper(s', body[k], depth);
      } else {
        NoneRemoved<T>(pending[1..], []);
      }
      WithoutDistinct(pending[1..], RemovedIn(calls));
      assert From(r.state.nodes, r.state.cursor) == Without(pending[1..], RemovedIn(calls));
      LoopWalks(r.state, body, k + 1, depth);
      TurnThenWalk(pending, calls, Loop(r.state, body, k + 1, depth).trace, depth);
      assert r.trace == [Visit(node, depth)] + calls;
    }
  }

  // The main result: for any callbacks whose own walks spare the saved node, whatever is nested in
  // those, each() visits exactly once, in order, every initial node that is not removed before its
  // turn, and nothing else.
  lemma EachVisits<T>(s: ListState<T>, body: seq<Script<T>>, depth: nat)
    requires Distinct(s.nodes) && Each(s, body, depth).kept
    ensures WalkTrace(Each(s, body, depth).trace, s.nodes, depth)
  {
    var s' := s.(cursor := Head(s.nodes));
    FromSuffix(s.nodes, s.nodes);
    LoopWalks(s', body, 0, depth);
  }

  // Callbacks without nested walks always qualify.
  predicate Flat<T>(script: Script<T>) {
    match script
    case End => true
    case AddOp(_, rest) => Flat(rest)
    case RemoveOp(_, rest) => Flat(rest)
    case WalkOp(_, _) => false
  }

  lemma {:induction false} FlatRunIsKept<T>(s: ListState<T>, script: Script<T>, depth: nat)
    requires Distinct(s.nodes) && Flat(script)
    ensures Run(s, script, depth).kept
    decreases script
  {
    match script
    case End =>
    case AddOp(n, rest) => FlatRunIsKept(if n in s.nodes then s else AddNode(s, n), rest, depth);
    case RemoveOp(n, rest) =>
      WithoutDistinct(s.nodes, {n});
      FlatRunIsKept(RemoveNode(s, n), rest, depth);
  }

  // What a callback without walks has to do to a list of `members`: its operations in order, without the
  // adds of tracked nodes and the removals of untracked ones.
  function Effects<T(==)>(members: set<T>, script: Script<T>): seq<Event<T>>
    decreases script
  {
    match script
    case End => []
    case AddOp(n, rest) => (if n in members then [] else [Added(n)]) + Effects(members + {n}, rest)
    case RemoveOp(n, rest) => (if n in members then [Removed(n)] else []) + Effects(members - {n}, rest)
    case WalkOp(_, rest) => Effects(members, rest)
  }

  // And does.
  lemma {:induction false} FlatRunDoes<T>(s: ListState<T>, script: Script<T>, depth: nat)
    requires Distinct(s.nodes) && Flat(script)
    ensures Run(s, script, depth).trace == Effects(Members(s.nodes), script)
    decreases script
  {
    match script
    case End =>
    case AddOp(n, rest) =>
      if n in s.nodes {
        assert Members(s.nodes) + {n} == Members(s.nodes);
        FlatRunDoes(s, rest, depth);
      } else {
        assert Members(AddNode(s, n).nodes) == Members(s.nodes) + {n};
        FlatRunDoes(AddNode(s, n), rest, depth);
      }
    case RemoveOp(n, rest) =>
      WithoutDistinct(s.nodes, {n});
      assert Members(RemoveNode(s, n).nodes) == Members(s.nodes) - {n};
      FlatRunDoes(RemoveNode(s, n), rest, depth);
  }

  lemma {:induction false} FlatWalkIsKept<T>(s: ListState<T>, body: seq<Script<T>>, k: nat, depth: nat)
    requires Distinct(s.nodes) && forall i :: 0 <= i < |body| ==> Flat(body[i])
    ensures Loop(s, body, k, depth).kept
    decreases if k < |body| then |body| - k else 0, |From(s.nodes, s.cursor)|
  {
    if s.cursor.Some? {
      if k < |body| {
        FlatRunIsKept(s.(cursor := NextOf(s.nodes, s.cursor.value)), body[k], depth);
      }
      FlatWalkIsKept(Turn(s, body, k, depth).state, body, k + 1, depth);
    }
  }

  function Visits<T(==)>(trace: seq<Event<T>>, depth: nat): nat {
    if trace == [] then 0 else (if IsVisit(trace[0], depth) then 1 else 0) + Visits(trace[1..], depth)
  }

  lemma {:induction false} VisitsConcat<T>(a: seq<Event<T>>, b: seq<Event<T>>, depth: nat)
    ensures Visits(a + b, depth) == Visits(a, depth) + Visits(b, depth)
  {
    if a == [] {
      assert a + b == b;
    } else {
      assert (a + b)[1..] == a[1..] + b;
      VisitsConcat(a[1..], b, depth);
    }
  }

  lemma {:induction false} NoVisits<T>(trace: seq<Event<T>>, depth: nat)
    requires forall e :: e in trace ==> !IsVisit(e, depth)
    ensures Visits(trace, depth) == 0
  {
    if trace != [] {
      NoVisits(trace[1..], depth);
    }
  }

  // The walk ends: however long the callbacks keep adding nodes, each pending node is one turn at most.
  lemma {:induction false} WalkEnds<T>(s: ListState<T>, body: seq<Script<T>>, k: nat, depth: nat)
    requires Distinct(s.nodes) && Tracked(s) && Loop(s, body, k, depth).kept
    ensures Visits(Loop(s, body, k, depth).trace, depth) <= |From(s.nodes, s.cursor)|
    decreases |From(s.nodes, s.cursor)|
  {
    hide Run, Each, IndexOf, Without;
    if s.cursor.Some? {
      var rest := From(s.nodes, s.cursor)[1..];
      FromNext(s.nodes, s.cursor.value);
      var s' := s.(cursor := NextOf(s.nodes, s.cursor.value));
      var r := Turn(s, body, k, depth);
      if k < |body| {
        RunResumes(s', body[k], depth);
        RunIsDeeper(s', body[k], depth);
        WithoutDistinct(rest, RemovedIn(Run(s', body[k], depth).trace));
      }
      NoVisits(r.trace[1..], depth);
      WalkEnds(r.state, body, k + 1, depth);
      VisitsConcat(r.trace, Loop(r.state, body, k + 1, depth).trace, depth);
    }
  }

  // A nested walk that removes the saved node makes the walk around it visit a removed node and
  // skip one that is still tracked, for any three nodes.
  lemma NestedRemovalBreaksTheWalk<T>(a: T, b: T, c: T, s: ListState<T>, inner: seq<Script<T>>, body: seq<Script<T>>)
    requires Distinct([a, b, c]) && s == ListState([a, b, c], None)
    requires inner == [RemoveOp(b, End)] && body == [WalkOp(inner, End)]
    ensures var r := Each(s, body, 0);
            && r.trace == [Visit(a, 0), Visit(a, 1), Removed(b), Visit(c, 1), Visit(b, 0)]
            && r.state.nodes == [a, c]
            && !WalkTrace(r.trace, s.nodes, 0)
  {
    var saved := ListState(s.nodes, Some(b));
    NextIs(s.nodes, 0);
    NestedRemovalInside(a, b, c, saved, inner);
    WalkThenEnd(saved, inner);
    var left := ListState([a, c], Some(b));
    OneTurn(left, body, 1, 0);
    EachInTwo(s, body, 0);
    RemovedThenVisited(Each(s, body, 0).trace, s.nodes, 2, 4);
  }

  lemma NestedRemovalInside<T>(a: T, b: T, c: T, s: ListState<T>, inner: seq<Script<T>>)
    requires Distinct([a, b, c]) && s == ListState([a, b, c], Some(b)) && inner == [RemoveOp(b, End)]
    ensures var r := Each(s, inner, 1);
            r.trace == [Visit(a, 1), Removed(b), Visit(c, 1)] && r.state == ListState([a, c], Some(b))
  {
    hide Loop, Turn, Run, RemoveNode, Without, NextOf, From;
    NestedRemovalTurn(a, b, c, s, inner);
    var left := ListState([a, c], Some(c));
    NextIs(left.nodes, 1);
    OneTurn(left, inner, 1, 1);
    EachInTwo(s, inner, 1);
  }

  lemma NestedRemovalTurn<T>(a: T, b: T, c: T, s: ListState<T>, inner: seq<Script<T>>)
    requires Distinct([a, b, c]) && s == ListState([a, b, c], Some(b)) && inner == [RemoveOp(b, End)]
    ensures var r := Turn(s.(cursor := Some(a)), inner, 0, 1);
            r.trace == [Visit(a, 1), Removed(b)] && r.state == ListState([a, c], Some(c))
  {
    NextIs(s.nodes, 0);
    NextIs(s.nodes, 1);
    CutOut(s.nodes, 1);
    RemoveThenEnd(s, b);
  }

  lemma RemoveThenEnd<T>(s: ListState<T>, n: T)
    requires Distinct(s.nodes) && n in s.nodes
    ensures Run(s, RemoveOp(n, End), 1).state == RemoveNode(s, n)
    ensures Run(s, RemoveOp(n, End), 1).trace == [Removed(n)]
  {
  }

  lemma WalkThenEnd<T>(s: ListState<T>, inner: seq<Script<T>>)
    requires Distinct(s.nodes)
    ensures Run(s, WalkOp(inner, End), 0).state == Each(s, inner, 1).state
    ensures Run(s, WalkOp(inner, End), 0).trace == Each(s, inner, 1).trace
  {
  }

  // Past the script, at a node with nothing after it: one visit, and the walk is over.
  lemma OneTurn<T>(s: ListState<T>, body: seq<Script<T>>, k: nat, depth: nat)
    requires Distinct(s.nodes) && s.cursor.Some? && NextOf(s.nodes, s.cursor.value) == None && k >= |body|
    ensures Loop(s, body, k, depth).trace == [Visit(s.cursor.value, depth)]
    ensures Loop(s, body, k, depth).state == s.(cursor := None)
  {
    assert Loop(s.(cursor := None), body, k + 1, depth).trace == [];
  }

  lemma EachInTwo<T>(s: ListState<T>, body: seq<Script<T>>, depth: nat)
    requires Distinct(s.nodes) && s.nodes != []
    ensures var first := Turn(s.(cursor := Some(s.nodes[0])), body, 0, depth);
            var rest := Loop(first.state, body, 1, depth);
            && Each(s, body, depth).trace == first.trace + rest.trace
            && Each(s, body, depth).state == rest.state.(cursor := s.cursor)
  {
  }

  lemma RemovedThenVisited<T>(trace: seq<Event<T>>, pending: seq<T>, j: nat, i: nat)
    requires j < i < |trace| && IsVisit(trace[i], 0) && trace[j] == Removed(trace[i].node)
    ensures !WalkTrace(trace, pending, 0)
  {
  }

  // Removing the node at `i` is cutting it out.
  lemma {:induction false} CutOut<T>(nodes: seq<T>, i: nat)
    requires Distinct(nodes) && i < |nodes|
    ensures Without(nodes, {nodes[i]}) == nodes[..i] + nodes[i + 1..]
  {
    if i == 0 {
      WithoutAbsent(nodes[1..], {nodes[0]});
    } else {
      CutOut(nodes[1..], i - 1);
      assert nodes[..i] + nodes[i + 1..] == [nodes[0]] + (nodes[1..][..i - 1] + nodes[1..][i..]);
    }
  }

  lemma NextIs<T>(nodes: seq<T>, i: nat)
    requires Distinct(nodes) && i < |nodes|
    ensures NextOf(nodes, nodes[i]) == if i + 1 < |nodes| then Some(nodes[i + 1]) else None
  {
    IndexIs(nodes, i);
  }
}

/**
 The intrusive AbortList of reactor.h: Abortables carry their own links, and a cursor member is
 repaired by remove() while a walk is under way. Every method is proved against AbortWalk.
 */
module AbortList {
  import opened AbortWalk
  import opened Basics

  class Abortable {
    var list: AbortList?
    var prev: Abortable?
    var next: Abortable?

    constructor ()
      ensures list == null && prev == null && next == null
    {
      list, prev, next := null, null, null;
    }
  }

  class AbortList {
    var head: Abortable?
    var cursor: Abortable?
    ghost var nodes: seq<Abortable>     // the tracked nodes, in list order
    ghost var all: set<Abortable>       // the nodes that are in this list or in none

    // Neighbours point at each other, and the ends at nothing.
    ghost predicate Linked()
      reads this`nodes, nodes
    {
      && (forall i, j :: 0 <= i < |nodes| && 0 <= j < |nodes| && j == i + 1 ==>
            nodes[i].next == nodes[j] && nodes[j].prev == nodes[i])
      && (nodes != [] ==> nodes[0].prev == null && nodes[|nodes| - 1].next == null)
    }

    ghost predicate Loose(a: Abortable)
      reads a
    {
      a.list == null && a.prev == null && a.next == null
    }

    ghost predicate Valid()
      reads this, nodes, all
    {
      Links() && (cursor != null ==> cursor in all)
    }

    ghost predicate Links()
      reads this`head, this`nodes, this`all, nodes, all
    {
      && Distinct(nodes)
      && (forall i :: 0 <= i < |nodes| ==> nodes[i] in all && nodes[i].list == this)
      && Linked()
      && (forall a :: a in all && a !in nodes ==> Loose(a))
      && head == (if nodes == [] then null else nodes[0])
    }

    ghost function View(): ListState<Abortable>
      reads this
    {
      ListState(nodes, Ref(cursor))
    }

    static function Ref(a: Abortable?): Option<Abortable> {
      if a == null then None else Some(a)
    }

    constructor (ghost universe: set<Abortable>)
      requires forall a :: a in universe ==> a.list == null && a.prev == null && a.next == null
      ensures Valid() && View() == ListState([], None) && all == universe
    {
      head, cursor := null, null;
      nodes, all := [], universe;
    }

    // Nodes that are in no list may come to this one later, whenever they were made.
    ghost method Meet(more: set<Abortable>)
      requires Valid() && forall a :: a in more ==> a in all || Loose(a)
      modifies this`all
      ensures Valid() && all == old(all) + more && View() == old(View())
    {
      all := all + more;
    }

    // A session's life on the list, as run_session drives it: its control is made after the list was,
    // tracked, and untracked by its destructor.
    method TrackNew() returns (a: Abortable)
      requires Valid()
      modifies this, all
      ensures Valid() && fresh(a) && all == old(all) + {a}
      ensures nodes == [a] + old(nodes) && cursor == old(cursor) && a.list == this && head == a
    {
      a := new Abortable();
      Meet({a});
      Add(a);
    }

    method Add(a: Abortable)
      requires Valid() && a in all && a !in nodes
      modifies this, all
      ensures Valid() && all == old(all) && View() == AddNode(old(View()), a)
      ensures nodes == [a] + old(nodes) && cursor == old(cursor)
    {
      a.list := this;
      a.prev := null;
      a.next := head;
      if head != null {
        head.prev := a;
      }
      head := a;
      nodes := [a] + nodes;
    }

    // Does nothing to a node that is not in this list, be it in another one or in none.
    method Remove(a: Abortable)
      requires Valid() && (a.list == this ==> a in all)
      modifies this, all
      ensures Valid() && all == old(all) && View() == RemoveNode(old(View()), a)
      ensures forall b :: b in nodes <==> b in old(nodes) && b != a
    {
      hide Links;
      Membership(a);
      if a.list != this {
        return;
      }
      ghost var before := View();
      ghost var i := Place(a);
      if cursor == a {
        cursor := a.next;
      }
      Unlink(a, i);
      RemoveIs(before, i);
    }

    lemma Membership(a: Abortable)
      requires Links() && (a.list == this ==> a in all)
      ensures a.list == this <==> a in nodes
      ensures Distinct(nodes)
    {
    }

    // Where a node of this list is, and what follows it.
    lemma Place(a: Abortable) returns (i: nat)
      requires Links() && a in all && a.list == this
      ensures i < |nodes| && nodes[i] == a
      ensures a.next == (if i + 1 < |nodes| then nodes[i + 1] else null)
      ensures a.next != null ==> a.next in all
    {
      i :| 0 <= i < |nodes| && nodes[i] == a;
    }

    // The neighbours of `a` are linked past it.
    method Bypass(a: Abortable, ghost i: nat)
      requires Links() && i < |nodes| && nodes[i] == a
      modifies this`head, all`prev, all`next
      ensures BypassedAt(nodes, i)
      ensures head == if i > 0 then nodes[0] else if |nodes| > 1 then nodes[1] else null
      ensures forall b :: b in all && b !in nodes ==> b.prev == null && b.next == null
    {
      assert i > 0 ==> a.prev == nodes[i - 1];
      assert i + 1 < |nodes| ==> a.next == nodes[i + 1];
      if a.prev != null {
        a.prev.next := a.next;
      } else {
        head := a.next;
      }
      if a.next != null {
        a.next.prev := a.prev;
      }
    }

    ghost predicate BypassedAt(was: seq<Abortable>, i: nat)
      requires i < |was|
      reads was
    {
      && (forall k, l :: 0 <= k < |was| && 0 <= l < |was| && l == k + 1 && k != i && l != i ==>
            was[k].next == was[l] && was[l].prev == was[k])
      && (0 < i < |was| - 1 ==> was[i - 1].next == was[i + 1] && was[i + 1].prev == was[i - 1])
      && (i == 0 && |was| > 1 ==> was[1].prev == null)
      && (i == |was| - 1 && |was| > 1 ==> was[i - 1].next == null)
      && (i != 0 ==> was[0].prev == null)
      && (i != |was| - 1 ==> was[|was| - 1].next == null)
    }

    // What becomes of the links in remove(): `a` is cut out, the list around it closes.
    method Detach(a: Abortable, ghost i: nat)
      requires Links() && i < |nodes| && nodes[i] == a
      modifies this`head, all
      ensures BypassedAt(nodes, i)
      ensures head == if i > 0 then nodes[0] else if |nodes| > 1 then nodes[1] else null
      ensures forall k :: 0 <= k < |nodes| && k != i ==> nodes[k].list == this
      ensures forall b :: b in all && (b !in nodes || b == a) ==> Loose(b)
    {
      assert forall k :: 0 <= k < |nodes| && k != i ==> nodes[k] != a;
      Bypass(a, i);
      a.list := null;
      a.prev := null;
      a.next := null;
    }

    method Unlink(a: Abortable, ghost i: nat)
      requires Links() && i < |nodes| && nodes[i] == a
      modifies this`head, this`nodes, all
      ensures Links() && nodes == old(nodes)[..i] + old(nodes)[i + 1..]
    {
      hide Linked, BypassedAt;
      ghost var was := nodes;
      CutDistinct(was, i);
      Detach(a, i);
      nodes := nodes[..i] + nodes[i + 1..];
      Relinked(was, i);
    }

    // The links of `was` after the node at `i` was bypassed are the links of `nodes`.
    lemma Relinked(was: seq<Abortable>, i: nat)
      requires i < |was| && nodes == was[..i] + was[i + 1..]
      requires BypassedAt(was, i)
      requires forall k :: 0 <= k < |was| && k != i ==> was[k] in all && was[k].list == this
      ensures Linked()
      ensures forall k :: 0 <= k < |nodes| ==> nodes[k] in all && nodes[k].list == this
    {
      forall k | 0 <= k < |nodes| ensures nodes[k] in all && nodes[k].list == this {
        assert nodes[k] == if k < i then was[k] else was[k + 1];
      }
      forall k, l | 0 <= k < |nodes| && 0 <= l < |nodes| && l == k + 1
        ensures nodes[k].next == nodes[l] && nodes[l].prev == nodes[k]
      {
        assert nodes[k] == if k < i then was[k] else was[k + 1];
        assert nodes[l] == if l < i then was[l] else was[l + 1];
      }
      if nodes != [] {
        assert nodes[0] == if 0 < i then was[0] else was[1];
        var last := |nodes| - 1;
        assert nodes[last] == if last < i then was[last] else was[last + 1];
      }
    }

    // each(f), with the callbacks of `body`: the trace and the list are those of AbortWalk.Each.
    method Each(body: seq<Script<Abortable>>, depth: nat) returns (trace: seq<Event<Abortable>>)
      requires Valid() && forall k :: 0 <= k < |body| ==> Within(body[k], all)
      modifies this, all
      ensures Valid() && all == old(all)
      ensures View() == AbortWalk.Each(old(View()), body, depth).state
      ensures trace == AbortWalk.Each(old(View()), body, depth).trace
      decreases body, 2
    {
      hide Loop, Linked, Distinct, Within;
      var outer := cursor;
      cursor := head;
      trace := WalkFromCursor(body, depth);
      cursor := outer;
    }

    // The loop of each().
    method WalkFromCursor(body: seq<Script<Abortable>>, depth: nat) returns (trace: seq<Event<Abortable>>)
      requires Valid() && forall k :: 0 <= k < |body| ==> Within(body[k], all)
      modifies this, all
      ensures Valid() && all == old(all)
      ensures View() == Loop(old(View()), body, 0, depth).state
      ensures trace == Loop(old(View()), body, 0, depth).trace
      decreases body, 1
    {
      hide Loop, Turn, Run, From, IndexOf, Distinct, Linked, Within;
      trace := [];
      var k := 0;
      while cursor != null
        invariant Valid() && all == old(all)
        invariant Loop(old(View()), body, 0, depth).state == Loop(View(), body, k, depth).state
        invariant Loop(old(View()), body, 0, depth).trace == trace + Loop(View(), body, k, depth).trace
        decreases if k < |body| then |body| - k else 0, |From(nodes, Ref(cursor))|
      {
        ghost var done := trace;
        LoopTurn(View(), body, k, depth);
        var turn := VisitNext(body, k, depth);
        trace := trace + turn;
        k := k + 1;
        ConcatAssociates(done, turn, Loop(View(), body, k, depth).trace);
      }
      LoopEnd(View(), body, k, depth);
    }

    // One turn of the loop of each().
    method VisitNext(body: seq<Script<Abortable>>, k: nat, depth: nat) returns (trace: seq<Event<Abortable>>)
      requires Valid() && cursor != null && forall k :: 0 <= k < |body| ==> Within(body[k], all)
      modifies this, all
      ensures Valid() && all == old(all)
      ensures View() == Turn(old(View()), body, k, depth).state
      ensures trace == Turn(old(View()), body, k, depth).trace
      decreases body, 0
    {
      var node := cursor;
      NextLink(node);
      cursor := node.next;
      trace := [Visit(node, depth)];
      if k < |body| {
        var calls := RunScript(body[k], depth);
        trace := trace + calls;
      }
    }

    // What one callback does to the list.
    method RunScript(script: Script<Abortable>, depth: nat) returns (trace: seq<Event<Abortable>>)
      requires Valid() && Within(script, all)
      modifies this, all
      ensures Valid() && all == old(all)
      ensures View() == Run(old(View()), script, depth).state
      ensures trace == Run(old(View()), script, depth).trace
      decreases script
    {
      match script {
        case End =>
          trace := [];
        case AddOp(a, rest) =>
          var tracked := a.list == this;
          if !tracked {
            Add(a);
          }
          trace := RunScript(rest, depth);
          trace := (if tracked then [] else [Added(a)]) + trace;
        case RemoveOp(a, rest) =>
          var tracked := a.list == this;
          Remove(a);
          trace := RunScript(rest, depth);
          trace := (if tracked then [Removed(a)] else []) + trace;
        case WalkOp(body, rest) =>
          var inner := Each(body, depth + 1);
          trace := RunScript(rest, depth);
          trace := inner + trace;
      }
    }

    // The next link of any node is its successor in the list; a node outside it has none.
    lemma NextLink(a: Abortable)
      requires Links() && a in all
      ensures Ref(a.next) == NextOf(nodes, a)
      ensures a.next != null ==> a.next in all
    {
      if a in nodes {
        var i := Place(a);
        IndexIs(nodes, i);
      }
    }

    predicate IsEmpty()
      requires Valid()
      reads this, nodes, all
      ensures IsEmpty() <==> nodes == []
    {
      head == null
    }
  }

  lemma LoopTurn<T>(s: ListState<T>, body: seq<Script<T>>, k: nat, depth: nat)
    requires Distinct(s.nodes) && s.cursor.Some?
    ensures var r := Turn(s, body, k, depth);
            Loop(s, body, k, depth) == Before(r, Loop(r.state, body, k + 1, depth))
  {
  }

  lemma LoopEnd<T>(s: ListState<T>, body: seq<Script<T>>, k: nat, depth: nat)
    requires Distinct(s.nodes) && s.cursor.None?
    ensures Loop(s, body, k, depth) == Outcome(s, [], true)
  {
  }

  lemma ConcatAssociates<T>(a: seq<T>, b: seq<T>, c: seq<T>)
    ensures a + (b + c) == a + b + c
  {
  }

  // The script names nodes of `all` only.
  predicate Within(script: Script<Abortable>, all: set<Abortable>) {
    match script
    case End => true
    case AddOp(a, rest) => a in all && Within(rest, all)
    case RemoveOp(a, rest) => a in all && Within(rest, all)
    case WalkOp(body, rest) => (forall k :: 0 <= k < |body| ==> Within(body[k], all)) && Within(rest, all)
  }

  lemma CutDistinct<T>(nodes: seq<T>, i: nat)
    requires Distinct(nodes) && i < |nodes|
    ensures Distinct(nodes[..i] + nodes[i + 1..])
    ensures forall n :: n in nodes[..i] + nodes[i + 1..] ==> n in nodes && n != nodes[i]
    ensures forall n :: n in nodes && n != nodes[i] ==> n in nodes[..i] + nodes[i + 1..]
  {
    var cut := nodes[..i] + nodes[i + 1..];
    forall n | n in nodes && n != nodes[i] ensures n in cut {
      var k :| 0 <= k < |nodes| && nodes[k] == n;
      assert cut[if k < i then k else k - 1] == n;
    }
  }

  lemma RemoveIs<T>(s: ListState<T>, i: nat)
    requires Distinct(s.nodes) && i < |s.nodes|
    ensures RemoveNode(s, s.nodes[i]).nodes == s.nodes[..i] + s.nodes[i + 1..]
    ensures RemoveNode(s, s.nodes[i]).cursor ==
            if s.cursor != Some(s.nodes[i]) then s.cursor else if i + 1 < |s.nodes| then Some(s.nodes[i + 1]) else None
  {
    IndexIs(s.nodes, i);
    CutOut(s.nodes, i);
  }
}

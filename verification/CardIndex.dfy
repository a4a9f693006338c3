/** The in-memory card index and its explicit-stack traversal of descendants. */
module CardIndex {
  import opened Graph

  /** `children` is the stored child order; other fields play no part here. */
  datatype CardRecord = CardRecord(id: string, children: seq<string>)

  type Cards = map<string, CardRecord>

  function Known(cards: Cards, ids: seq<string>): (r: seq<string>)
    ensures forall id :: id in r <==> id in ids && id in cards
  {
    if ids == [] then []
    else
      var rest := Known(cards, ids[1..]);
      assert forall id :: id in ids <==> id == ids[0] || id in ids[1..];
      if ids[0] in cards then [ids[0]] + rest else rest
  }

  function ChildrenOf(cards: Cards, id: string): (r: seq<string>)
    ensures forall c :: c in r ==> c in cards
  {
    if id in cards then Known(cards, cards[id].children) else []
  }

  /** `at` picks, in order, exactly the positions of `ids` whose ids are known, repetitions included. */
  ghost predicate Filters(cards: Cards, ids: seq<string>, at: seq<nat>, r: seq<string>) {
    && |at| == |r|
    && (forall k :: 0 <= k < |at| ==> at[k] < |ids| && ids[at[k]] == r[k])
    && (forall j, k :: 0 <= j < k < |at| ==> at[j] < at[k])
    && (forall p :: 0 <= p < |ids| ==> (ids[p] in cards <==> p in at))
  }

  function Shifted(at: seq<nat>): seq<nat> {
    seq(|at|, k requires 0 <= k < |at| => at[k] + 1)
  }

  lemma InShifted(at: seq<nat>, p: nat)
    requires p > 0
    ensures p in Shifted(at) <==> p - 1 in at
  {
    if p - 1 in at {
      var k :| 0 <= k < |at| && at[k] == p - 1;
      assert Shifted(at)[k] == p;
    }
  }

  lemma UnknownFirst(cards: Cards, first: string, ids: seq<string>, at: seq<nat>, r: seq<string>)
    requires Filters(cards, ids, at, r) && first !in cards
    ensures Filters(cards, [first] + ids, Shifted(at), r)
  {
    var all := [first] + ids;
    forall p | 0 <= p < |all| ensures all[p] in cards <==> p in Shifted(at) {
      if p > 0 { InShifted(at, p); assert all[p] == ids[p - 1]; }
    }
  }

  lemma KnownFirst(cards: Cards, first: string, ids: seq<string>, at: seq<nat>, r: seq<string>)
    requires Filters(cards, ids, at, r) && first in cards
    ensures Filters(cards, [first] + ids, [0] + Shifted(at), [first] + r)
  {
    var all, positions := [first] + ids, [0] + Shifted(at);
    forall k | 0 <= k < |positions| ensures positions[k] < |all| && all[positions[k]] == ([first] + r)[k] {
      if k > 0 { assert positions[k] == at[k - 1] + 1 && all[at[k - 1] + 1] == ids[at[k - 1]]; }
    }
    forall j, k | 0 <= j < k < |positions| ensures positions[j] < positions[k] {
      assert positions[k] == at[k - 1] + 1 && (j > 0 ==> positions[j] == at[j - 1] + 1);
    }
    forall p | 0 <= p < |all| ensures all[p] in cards <==> p in positions {
      if p > 0 { InShifted(at, p); assert all[p] == ids[p - 1]; }
    }
  }

  lemma {:induction false} KnownIsFiltered(cards: Cards, ids: seq<string>) returns (at: seq<nat>)
    ensures Filters(cards, ids, at, Known(cards, ids))
  {
    if ids == [] {
      at := [];
    } else {
      var rest := KnownIsFiltered(cards, ids[1..]);
      assert ids == [ids[0]] + ids[1..];
      if ids[0] in cards {
        at := [0] + Shifted(rest);
        KnownFirst(cards, ids[0], ids[1..], rest, Known(cards, ids[1..]));
      } else {
        at := Shifted(rest);
        UnknownFirst(cards, ids[0], ids[1..], rest, Known(cards, ids[1..]));
      }
    }
  }

  /** The children of a card are its stored children that exist, in their stored order. */
  lemma ChildrenAreStored(cards: Cards, id: string)
    ensures id in cards ==> exists at: seq<nat> :: Filters(cards, cards[id].children, at, ChildrenOf(cards, id))
    ensures id !in cards ==> ChildrenOf(cards, id) == []
  {
    if id in cards {
      var at := KnownIsFiltered(cards, cards[id].children);
      assert Filters(cards, cards[id].children, at, ChildrenOf(cards, id));
    }
  }

  /** The child relation as a graph. */
  function Tree(cards: Cards): Adjacency {
    map id | id in cards :: ChildrenOf(cards, id)
  }

  lemma TreeEdges(cards: Cards, a: string, b: string)
    ensures Edge(Tree(cards), a, b) <==> b in ChildrenOf(cards, a)
  {
  }

  // ---------------------------------------------------------------- recursive preorder

  /** What a traversal has appended, and what it has seen by then. */
  datatype Trip = Trip(order: seq<string>, seen: set<string>)

  function Join(a: Trip, b: Trip): Trip {
    Trip(a.order + b.order, b.seen)
  }

  function Unseen(cards: Cards, seen: set<string>): set<string> {
    cards.Keys - seen
  }

  /** Child-first depth-first search: each node, when met for the first time, before its children. */
  function Visit(cards: Cards, id: string, seen: set<string>): (t: Trip)
    requires id in cards
    ensures seen <= t.seen
    decreases |Unseen(cards, seen)|, 0, 0
  {
    if id in seen then Trip([], seen)
    else
      UnseenShrinks(cards, seen, id);
      var below := VisitAll(cards, ChildrenOf(cards, id), seen + {id});
      Trip([id] + below.order, below.seen)
  }

  function VisitAll(cards: Cards, ids: seq<string>, seen: set<string>): (t: Trip)
    requires forall id :: id in ids ==> id in cards
    ensures seen <= t.seen
    decreases |Unseen(cards, seen)|, 1, |ids|
  {
    if ids == [] then Trip([], seen)
    else
      var first := Visit(cards, ids[0], seen);
      UnseenMonotone(cards, seen, first.seen);
      Join(first, VisitAll(cards, ids[1..], first.seen))
  }

  lemma UnseenShrinks(cards: Cards, seen: set<string>, id: string)
    requires id in cards && id !in seen
    ensures |Unseen(cards, seen + {id})| < |Unseen(cards, seen)|
  {
    assert Unseen(cards, seen + {id}) == Unseen(cards, seen) - {id};
  }

  lemma UnseenMonotone(cards: Cards, a: set<string>, b: set<string>)
    requires a <= b
    ensures |Unseen(cards, b)| <= |Unseen(cards, a)|
  {
    var extra := Unseen(cards, a) - Unseen(cards, b);
    assert Unseen(cards, a) == Unseen(cards, b) + extra;
  }

  function Descendants(cards: Cards, parent: string): seq<string> {
    VisitAll(cards, ChildrenOf(cards, parent), {}).order
  }

  // ---------------------------------------------------------------- what the preorder contains

  /** The order lists exactly the newly seen nodes, each once, and everything newly seen has all its
      children seen. */
  ghost predicate Sound(cards: Cards, t: Trip, seen: set<string>) {
    && (forall i, j :: 0 <= i < j < |t.order| ==> t.order[i] != t.order[j])
    && (forall id :: id in t.order <==> id in t.seen && id !in seen)
    && (forall id :: id in t.order ==> id in cards)
    && (forall a, b :: a in t.order && b in ChildrenOf(cards, a) ==> b in t.seen)
  }

  lemma {:induction false} VisitIsSound(cards: Cards, id: string, seen: set<string>)
    requires id in cards
    ensures Sound(cards, Visit(cards, id, seen), seen) && id in Visit(cards, id, seen).seen
    decreases |Unseen(cards, seen)|, 0, 0
  {
    if id !in seen {
      UnseenShrinks(cards, seen, id);
      VisitAllIsSound(cards, ChildrenOf(cards, id), seen + {id});
    }
  }

  lemma {:induction false} VisitAllIsSound(cards: Cards, ids: seq<string>, seen: set<string>)
    requires forall id :: id in ids ==> id in cards
    ensures Sound(cards, VisitAll(cards, ids, seen), seen)
    ensures forall id :: id in ids ==> id in VisitAll(cards, ids, seen).seen
    decreases |Unseen(cards, seen)|, 1, |ids|
  {
    if ids != [] {
      var first := Visit(cards, ids[0], seen);
      VisitIsSound(cards, ids[0], seen);
      UnseenMonotone(cards, seen, first.seen);
      VisitAllIsSound(cards, ids[1..], first.seen);
      TripsCompose(cards, first, VisitAll(cards, ids[1..], first.seen), seen);
      assert forall id :: id in ids <==> id == ids[0] || id in ids[1..];
    }
  }

  lemma TripsCompose(cards: Cards, a: Trip, b: Trip, seen: set<string>)
    requires Sound(cards, a, seen) && Sound(cards, b, a.seen) && seen <= a.seen <= b.seen
    ensures Sound(cards, Join(a, b), seen)
  {
    var t := Join(a, b);
    forall i, j | 0 <= i < j < |t.order| ensures t.order[i] != t.order[j] {
      if i < |a.order| && j >= |a.order| {
        assert t.order[i] in a.order && t.order[j] in b.order;
      }
    }
    assert forall id :: id in t.order <==> id in a.order || id in b.order;
  }

  /** Whatever is listed is reached from one of the starting points. */
  ghost predicate Below(cards: Cards, parent: string, ids: seq<string>) {
    forall id :: id in ids ==> Reaches(Tree(cards), parent, id)
  }

  lemma {:induction false} VisitReaches(cards: Cards, parent: string, id: string, seen: set<string>)
    requires id in cards && Reaches(Tree(cards), parent, id)
    ensures Below(cards, parent, Visit(cards, id, seen).order)
    decreases |Unseen(cards, seen)|, 0, 0
  {
    if id !in seen {
      UnseenShrinks(cards, seen, id);
      forall c | c in ChildrenOf(cards, id) ensures Reaches(Tree(cards), parent, c) {
        TreeEdges(cards, id, c);
        ReachesFurther(Tree(cards), parent, id, c);
      }
      VisitAllReaches(cards, parent, ChildrenOf(cards, id), seen + {id});
    }
  }

  lemma {:induction false} VisitAllReaches(cards: Cards, parent: string, ids: seq<string>, seen: set<string>)
    requires forall id :: id in ids ==> id in cards
    requires Below(cards, parent, ids)
    ensures Below(cards, parent, VisitAll(cards, ids, seen).order)
    decreases |Unseen(cards, seen)|, 1, |ids|
  {
    if ids != [] {
      var first := Visit(cards, ids[0], seen);
      VisitReaches(cards, parent, ids[0], seen);
      UnseenMonotone(cards, seen, first.seen);
      VisitAllReaches(cards, parent, ids[1..], first.seen);
    }
  }

  /** The preorder lists exactly the nodes reachable through children, each once, on every finite graph,
      cyclic ones included. */
  lemma DescendantsAreReachable(cards: Cards, parent: string)
    ensures forall id :: id in Descendants(cards, parent) <==> Reaches(Tree(cards), parent, id)
    ensures forall i, j :: 0 <= i < j < |Descendants(cards, parent)| ==>
              Descendants(cards, parent)[i] != Descendants(cards, parent)[j]
  {
    var ids, g := ChildrenOf(cards, parent), Tree(cards);
    var t := VisitAll(cards, ids, {});
    VisitAllIsSound(cards, ids, {});
    forall c | c in ids ensures Reaches(g, parent, c) {
      TreeEdges(cards, parent, c);
      EdgeReaches(g, parent, c);
    }
    VisitAllReaches(cards, parent, ids, {});
    forall id | Reaches(g, parent, id) ensures id in t.order {
      var p :| Walk(g, parent, id, p);
      SeenIsClosed(cards, t);
      assert Edge(g, p[0], p[1]);
      TreeEdges(cards, p[0], p[1]);
      var q := p[1..];
      forall i | 0 <= i < |q| - 1 ensures Edge(g, q[i], q[i + 1]) {
        assert Edge(g, p[i + 1], p[i + 2]);
      }
      WalkStaysInside(g, t.seen, q, |q| - 1);
    }
  }

  lemma SeenIsClosed(cards: Cards, t: Trip)
    requires Sound(cards, t, {})
    ensures ClosedUnder(Tree(cards), t.seen)
  {
    forall a, b | a in t.seen && Edge(Tree(cards), a, b) ensures b in t.seen {
      TreeEdges(cards, a, b);
      assert a in t.order;
    }
  }

  // ---------------------------------------------------------------- the order of the preorder

  ghost predicate AllListed(ids: seq<string>, listed: seq<string>) {
    forall c :: c in ids ==> c in listed
  }

  /** `x` is the first of `ids` that is not listed. */
  ghost predicate FirstUnlisted(ids: seq<string>, listed: seq<string>, x: string) {
    exists k :: 0 <= k < |ids| && ids[k] == x && x !in listed && forall j :: 0 <= j < k ==> ids[j] in listed
  }

  /** The nodes from position `from` on have all their children listed. */
  ghost predicate Finished(cards: Cards, nodes: seq<string>, from: nat)
    requires nodes != []
  {
    forall r :: from <= r < |nodes| ==> AllListed(ChildrenOf(cards, nodes[r]), nodes[1..])
  }

  /** Depth-first, `x` comes next after `nodes`, which is a root and the nodes listed below it: it is the
      first unlisted child of the latest node that has one. */
  ghost predicate ComesNext(cards: Cards, nodes: seq<string>, x: string)
    requires nodes != []
  {
    exists q: nat :: q < |nodes| && Finished(cards, nodes, q + 1) && FirstUnlisted(ChildrenOf(cards, nodes[q]), nodes[1..], x)
  }

  /** The depth-first order below `parent`, one node at a time, until every child is listed. */
  ghost predicate DepthFirst(cards: Cards, parent: string, order: seq<string>) {
    && (forall p :: 0 <= p < |order| ==> ComesNext(cards, [parent] + order[..p], order[p]))
    && Finished(cards, [parent] + order, 0)
  }

  /** A node with an unlisted child lies before every point from which all are finished. */
  lemma UnfinishedIsBefore(cards: Cards, nodes: seq<string>, q: nat, x: string, from: nat)
    requires q < |nodes| && FirstUnlisted(ChildrenOf(cards, nodes[q]), nodes[1..], x) && Finished(cards, nodes, from)
    ensures q < from
  {
    assert x in ChildrenOf(cards, nodes[q]);
  }

  lemma FirstIsUnique(ids: seq<string>, listed: seq<string>, x: string, y: string)
    requires FirstUnlisted(ids, listed, x) && FirstUnlisted(ids, listed, y)
    ensures x == y
  {
  }

  lemma SameUnfinished(cards: Cards, nodes: seq<string>, q: nat, x: string, r: nat, y: string)
    requires q < |nodes| && Finished(cards, nodes, q + 1) && FirstUnlisted(ChildrenOf(cards, nodes[q]), nodes[1..], x)
    requires r < |nodes| && Finished(cards, nodes, r + 1) && FirstUnlisted(ChildrenOf(cards, nodes[r]), nodes[1..], y)
    ensures q == r && x == y
  {
    UnfinishedIsBefore(cards, nodes, q, x, r + 1);
    UnfinishedIsBefore(cards, nodes, r, y, q + 1);
    FirstIsUnique(ChildrenOf(cards, nodes[q]), nodes[1..], x, y);
  }

  lemma NextIsUnique(cards: Cards, nodes: seq<string>, x: string, y: string)
    requires nodes != [] && ComesNext(cards, nodes, x) && ComesNext(cards, nodes, y)
    ensures x == y
  {
    var q: nat :| q < |nodes| && Finished(cards, nodes, q + 1) && FirstUnlisted(ChildrenOf(cards, nodes[q]), nodes[1..], x);
    var r: nat :| r < |nodes| && Finished(cards, nodes, r + 1) && FirstUnlisted(ChildrenOf(cards, nodes[r]), nodes[1..], y);
    SameUnfinished(cards, nodes, q, x, r, y);
  }

  lemma NothingFollows(cards: Cards, nodes: seq<string>, x: string)
    requires nodes != [] && Finished(cards, nodes, 0)
    ensures !ComesNext(cards, nodes, x)
  {
  }

  lemma NextAgrees(cards: Cards, parent: string, a: seq<string>, b: seq<string>, m: nat)
    requires DepthFirst(cards, parent, a) && DepthFirst(cards, parent, b)
    requires m < |a| && m <= |b| && a[..m] == b[..m]
    ensures m < |b| && a[m] == b[m]
  {
    var nodes := [parent] + a[..m];
    assert ComesNext(cards, nodes, a[m]);
    if |b| == m {
      assert b == b[..m];
      NothingFollows(cards, nodes, a[m]);
    } else {
      NextIsUnique(cards, nodes, a[m], b[m]);
    }
  }

  /** There is only one such order. */
  lemma {:induction false} DepthFirstPrefix(cards: Cards, parent: string, a: seq<string>, b: seq<string>, n: nat)
    requires DepthFirst(cards, parent, a) && DepthFirst(cards, parent, b) && n <= |a|
    ensures n <= |b| && a[..n] == b[..n]
  {
    if n > 0 {
      DepthFirstPrefix(cards, parent, a, b, n - 1);
      NextAgrees(cards, parent, a, b, n - 1);
      OneMore(a, b, n - 1);
    }
  }

  lemma OneMore(a: seq<string>, b: seq<string>, m: nat)
    requires m < |a| && m < |b| && a[..m] == b[..m] && a[m] == b[m]
    ensures a[..m + 1] == b[..m + 1]
  {
    assert a[..m + 1] == a[..m] + [a[m]] && b[..m + 1] == b[..m] + [b[m]];
  }

  lemma DepthFirstIsUnique(cards: Cards, parent: string, a: seq<string>, b: seq<string>)
    requires DepthFirst(cards, parent, a) && DepthFirst(cards, parent, b)
    ensures a == b
  {
    DepthFirstPrefix(cards, parent, a, b, |a|);
    DepthFirstPrefix(cards, parent, b, a, |b|);
    assert a == a[..|a|] && b == b[..|b|];
  }

  /** `after` lists more nodes than `before`, each of them where it comes next. */
  ghost predicate Extends(cards: Cards, parent: string, before: seq<string>, after: seq<string>) {
    && before <= after
    && forall p :: |before| <= p < |after| ==> ComesNext(cards, [parent] + after[..p], after[p])
  }

  lemma ExtendsThen(cards: Cards, parent: string, a: seq<string>, b: seq<string>, c: seq<string>)
    requires Extends(cards, parent, a, b) && Extends(cards, parent, b, c)
    ensures Extends(cards, parent, a, c)
  {
    forall p | |a| <= p < |c| ensures ComesNext(cards, [parent] + c[..p], c[p]) {
      if p < |b| {
        assert c[..p] == b[..p] && c[p] == b[p];
        assert ComesNext(cards, [parent] + b[..p], b[p]);
      }
    }
  }

  ghost predicate SeenIsListed(seen: set<string>, listed: seq<string>) {
    forall id :: id in seen <==> id in listed
  }

  /** The traversal is at child `k` of the node at `q`: the children before it are listed, and the nodes
      after `q` are finished. */
  ghost predicate Working(cards: Cards, nodes: seq<string>, q: nat, k: nat) {
    && q < |nodes| && k <= |ChildrenOf(cards, nodes[q])|
    && (forall j :: 0 <= j < k ==> ChildrenOf(cards, nodes[q])[j] in nodes[1..])
    && Finished(cards, nodes, q + 1)
  }

  lemma ListsNext(cards: Cards, parent: string, before: seq<string>, q: nat, k: nat)
    requires Working(cards, [parent] + before, q, k) && k < |ChildrenOf(cards, ([parent] + before)[q])|
    requires ChildrenOf(cards, ([parent] + before)[q])[k] !in before
    ensures Extends(cards, parent, before, before + [ChildrenOf(cards, ([parent] + before)[q])[k]])
  {
    var nodes := [parent] + before;
    var c := ChildrenOf(cards, nodes[q])[k];
    assert nodes[1..] == before;
    assert FirstUnlisted(ChildrenOf(cards, nodes[q]), nodes[1..], c);
    assert ComesNext(cards, nodes, c);
    assert (before + [c])[..|before|] == before;
  }

  lemma FinishedStays(cards: Cards, parent: string, before: seq<string>, after: seq<string>, q: nat)
    requires before <= after && q <= |before|
    requires Finished(cards, [parent] + before, q + 1) && Finished(cards, [parent] + after, |before| + 1)
    ensures Finished(cards, [parent] + after, q + 1)
  {
    var was, now := [parent] + before, [parent] + after;
    assert was[1..] == before && now[1..] == after;
    forall r | q + 1 <= r < |now| ensures AllListed(ChildrenOf(cards, now[r]), now[1..]) {
      if r < |was| {
        assert now[r] == was[r] && AllListed(ChildrenOf(cards, was[r]), was[1..]);
      }
    }
  }

  lemma WorkGoesOn(cards: Cards, parent: string, before: seq<string>, after: seq<string>, q: nat, k: nat)
    requires Working(cards, [parent] + before, q, k) && k < |ChildrenOf(cards, ([parent] + before)[q])|
    requires before <= after && ChildrenOf(cards, ([parent] + before)[q])[k] in after
    requires Finished(cards, [parent] + after, |before| + 1)
    ensures Working(cards, [parent] + after, q, k + 1) && ([parent] + after)[q] == ([parent] + before)[q]
  {
    var was, now := [parent] + before, [parent] + after;
    assert was[1..] == before && now[1..] == after && now[q] == was[q];
    FinishedStays(cards, parent, before, after, q);
    forall j | 0 <= j < k + 1 ensures ChildrenOf(cards, now[q])[j] in now[1..] {
      if j < k { assert ChildrenOf(cards, was[q])[j] in before; }
    }
  }

  /** What a traversal of children `k` onwards of the node at `q` has done when it is over. */
  ghost predicate Worked(cards: Cards, parent: string, before: seq<string>, q: nat, t: Trip) {
    var after := before + t.order;
    Extends(cards, parent, before, after) && Finished(cards, [parent] + after, q) && SeenIsListed(t.seen, after)
  }

  lemma WorkIsDone(cards: Cards, parent: string, before: seq<string>, seen: set<string>, q: nat)
    requires q <= |before| && SeenIsListed(seen, before)
    requires Working(cards, [parent] + before, q, |ChildrenOf(cards, ([parent] + before)[q])|)
    ensures Worked(cards, parent, before, q, Trip([], seen))
  {
    var nodes := [parent] + before;
    assert before + [] == before && nodes[1..] == before;
    forall r | q <= r < |nodes| ensures AllListed(ChildrenOf(cards, nodes[r]), nodes[1..]) {
      if r == q {
        forall c | c in ChildrenOf(cards, nodes[q]) ensures c in nodes[1..] {
          var j :| 0 <= j < |ChildrenOf(cards, nodes[q])| && ChildrenOf(cards, nodes[q])[j] == c;
        }
      }
    }
  }

  /** The recursive search lists its nodes in depth-first order. */
  lemma {:induction false} VisitAllFollows(
    cards: Cards, parent: string, before: seq<string>, seen: set<string>, q: nat, k: nat)
    requires Working(cards, [parent] + before, q, k) && SeenIsListed(seen, before)
    ensures Worked(cards, parent, before, q, VisitAll(cards, ChildrenOf(cards, ([parent] + before)[q])[k..], seen))
    decreases |Unseen(cards, seen)|, |ChildrenOf(cards, ([parent] + before)[q])| - k
  {
    var nodes := [parent] + before;
    var children := ChildrenOf(cards, nodes[q]);
    if k == |children| {
      WorkIsDone(cards, parent, before, seen, q);
    } else {
      var c := children[k];
      assert children[k..] == [c] + children[k + 1..];
      VisitFirst(cards, c, children[k + 1..], seen);
      if c in seen {
        assert nodes[1..] == before;
        VisitAllFollows(cards, parent, before, seen, q, k + 1);
        var rest := VisitAll(cards, children[k + 1..], seen);
        assert Join(Trip([], seen), rest) == rest;
      } else {
        VisitChildFollows(cards, parent, before, seen, q, k);
      }
    }
  }

  lemma {:induction false} VisitChildFollows(
    cards: Cards, parent: string, before: seq<string>, seen: set<string>, q: nat, k: nat)
    requires Working(cards, [parent] + before, q, k) && SeenIsListed(seen, before)
    requires k < |ChildrenOf(cards, ([parent] + before)[q])|
    requires ChildrenOf(cards, ([parent] + before)[q])[k] !in seen
    ensures var children := ChildrenOf(cards, ([parent] + before)[q]);
            var first := Visit(cards, children[k], seen);
            Worked(cards, parent, before, q, Join(first, VisitAll(cards, children[k + 1..], first.seen)))
    decreases |Unseen(cards, seen)|, 0
  {
    var nodes := [parent] + before;
    var children := ChildrenOf(cards, nodes[q]);
    var c := children[k];
    var one := before + [c];
    ListsNext(cards, parent, before, q, k);
    UnseenShrinks(cards, seen, c);
    assert ([parent] + one)[|nodes|] == c;
    VisitAllFollows(cards, parent, one, seen + {c}, |nodes|, 0);
    assert ChildrenOf(cards, c)[0..] == ChildrenOf(cards, c);
    var below := VisitAll(cards, ChildrenOf(cards, c), seen + {c});
    var two := one + below.order;
    UnseenMonotone(cards, seen + {c}, below.seen);
    WorkGoesOn(cards, parent, before, two, q, k);
    VisitAllFollows(cards, parent, two, below.seen, q, k + 1);
    WorkedThen(cards, parent, before, c, q, below, VisitAll(cards, children[k + 1..], below.seen));
  }

  lemma WorkedThen(cards: Cards, parent: string, before: seq<string>, c: string, q: nat, below: Trip, rest: Trip)
    requires Extends(cards, parent, before, before + [c])
    requires Worked(cards, parent, before + [c], |before| + 1, below)
    requires Worked(cards, parent, before + [c] + below.order, q, rest)
    ensures Worked(cards, parent, before, q, Join(Trip([c] + below.order, below.seen), rest))
  {
    var one, two := before + [c], before + [c] + below.order;
    ExtendsThen(cards, parent, before, one, two);
    ExtendsThen(cards, parent, before, two, two + rest.order);
    OrdersAssociate(before, c, below.order, rest.order);
  }

  lemma OrdersAssociate(before: seq<string>, c: string, below: seq<string>, rest: seq<string>)
    ensures before + (([c] + below) + rest) == (before + [c] + below) + rest
  {
  }

  lemma DescendantsAreDepthFirst(cards: Cards, parent: string)
    ensures DepthFirst(cards, parent, Descendants(cards, parent))
  {
    assert ([parent] + [])[0] == parent;
    VisitAllFollows(cards, parent, [], {}, 0, 0);
    assert ChildrenOf(cards, parent)[0..] == ChildrenOf(cards, parent);
    var order := Descendants(cards, parent);
    assert [] + order == order;
  }

  /** The descendants are listed in depth-first order, which fixes the list completely. */
  lemma OnlyDescendantsAreDepthFirst(cards: Cards, parent: string, order: seq<string>)
    ensures DepthFirst(cards, parent, order) <==> order == Descendants(cards, parent)
  {
    DescendantsAreDepthFirst(cards, parent);
    if DepthFirst(cards, parent, order) {
      DepthFirstIsUnique(cards, parent, order, Descendants(cards, parent));
    }
  }

  // ---------------------------------------------------------------- changing one card

  /** Two indexes agree about every node of a set that children do not lead out of. */
  ghost predicate AgreeOn(a: Cards, b: Cards, nodes: set<string>) {
    forall id :: id in nodes ==>
      ChildrenOf(a, id) == ChildrenOf(b, id) && forall c :: c in ChildrenOf(a, id) ==> c in nodes
  }

  lemma {:induction false} VisitAgrees(a: Cards, b: Cards, id: string, seen: set<string>, nodes: set<string>)
    requires AgreeOn(a, b, nodes) && id in nodes && id in a && id in b
    ensures Visit(a, id, seen) == Visit(b, id, seen)
    decreases |Unseen(a, seen)|, 0, 0
  {
    if id !in seen {
      UnseenShrinks(a, seen, id);
      VisitAllAgrees(a, b, ChildrenOf(a, id), seen + {id}, nodes);
    }
  }

  lemma {:induction false} VisitAllAgrees(a: Cards, b: Cards, ids: seq<string>, seen: set<string>, nodes: set<string>)
    requires AgreeOn(a, b, nodes) && forall id :: id in ids ==> id in nodes && id in a && id in b
    ensures VisitAll(a, ids, seen) == VisitAll(b, ids, seen)
    decreases |Unseen(a, seen)|, 1, |ids|
  {
    if ids != [] {
      var first := Visit(a, ids[0], seen);
      VisitAgrees(a, b, ids[0], seen, nodes);
      UnseenMonotone(a, seen, first.seen);
      VisitAllAgrees(a, b, ids[1..], first.seen, nodes);
    }
  }

  lemma {:induction false} KnownElsewhere(a: Cards, b: Cards, id: string, ids: seq<string>)
    requires id in a && a - {id} == b - {id} && id !in Known(a, ids)
    ensures Known(a, ids) == Known(b, ids)
  {
    if ids != [] {
      var rest := Known(a, ids[1..]);
      KnownElsewhere(a, b, id, ids[1..]);
      assert ids[0] != id;
      assert ids[0] in a <==> ids[0] in a - {id};
      assert ids[0] in b <==> ids[0] in b - {id};
    }
  }

  /** The descendants of a card are the same in two indexes that differ only in a card which is not one
      of them. */
  lemma DescendantsElsewhere(a: Cards, b: Cards, id: string, parent: string)
    requires id in a && a - {id} == b - {id}
    requires parent != id && id !in Descendants(a, parent)
    ensures Descendants(a, parent) == Descendants(b, parent)
  {
    var t := VisitAll(a, ChildrenOf(a, parent), {});
    VisitAllIsSound(a, ChildrenOf(a, parent), {});
    var nodes := t.seen + {parent};
    forall n | n in nodes
      ensures ChildrenOf(a, n) == ChildrenOf(b, n) && forall c :: c in ChildrenOf(a, n) ==> c in nodes
    {
      assert n == parent || n in t.order;
      ChildrenElsewhere(a, b, id, n);
    }
    assert AgreeOn(a, b, nodes);
    VisitAllAgrees(a, b, ChildrenOf(a, parent), {}, nodes);
  }

  lemma ChildrenElsewhere(a: Cards, b: Cards, id: string, node: string)
    requires id in a && a - {id} == b - {id} && node != id && id !in ChildrenOf(a, node)
    ensures ChildrenOf(a, node) == ChildrenOf(b, node)
  {
    assert node in a <==> node in a - {id};
    assert node in b <==> node in b - {id};
    if node in a {
      assert (a - {id})[node] == (b - {id})[node];
      KnownElsewhere(a, b, id, a[node].children);
    }
  }

  /** Storing a card changes the descendants of those cards only that lie above it, and replacing one
      leaves it below the same cards. */
  lemma UpsertElsewhere(cards: Cards, card: CardRecord, parent: string)
    requires parent != card.id
    ensures var after := cards[card.id := card];
            && (card.id !in Descendants(after, parent) ==> Descendants(after, parent) == Descendants(cards, parent))
            && (card.id in Descendants(cards, parent) ==> card.id in Descendants(after, parent))
            && (card.id in cards && card.id in Descendants(after, parent) ==> card.id in Descendants(cards, parent))
  {
    var after := cards[card.id := card];
    assert after - {card.id} == cards - {card.id};
    if card.id !in Descendants(after, parent) {
      DescendantsElsewhere(after, cards, card.id, parent);
    }
    if card.id in cards && card.id !in Descendants(cards, parent) {
      DescendantsElsewhere(cards, after, card.id, parent);
    }
  }

  // ---------------------------------------------------------------- the explicit stack

  function Reversed(ids: seq<string>): (r: seq<string>)
    ensures |r| == |ids|
    ensures forall id :: id in r <==> id in ids
  {
    if ids == [] then []
    else
      assert forall id :: id in ids <==> id == ids[0] || id in ids[1..];
      Reversed(ids[1..]) + [ids[0]]
  }

  lemma {:induction false} ReversedAppends(a: seq<string>, b: seq<string>)
    ensures Reversed(a + b) == Reversed(b) + Reversed(a)
  {
    if a == [] {
      assert a + b == b;
    } else {
      assert (a + b)[1..] == a[1..] + b;
      ReversedAppends(a[1..], b);
    }
  }

  lemma {:induction false} ReversedTwice(a: seq<string>)
    ensures Reversed(Reversed(a)) == a
  {
    if a != [] {
      ReversedAppends(Reversed(a[1..]), [a[0]]);
      ReversedTwice(a[1..]);
    }
  }

  lemma JoinAssociates(a: Trip, b: Trip, c: Trip)
    ensures Join(Join(a, b), c) == Join(a, Join(b, c))
  {
    assert (a.order + b.order) + c.order == a.order + (b.order + c.order);
  }

  lemma VisitFirst(cards: Cards, id: string, rest: seq<string>, seen: set<string>)
    requires id in cards
    requires forall c :: c in rest ==> c in cards
    requires forall c :: c in [id] + rest ==> c in cards
    ensures VisitAll(cards, [id] + rest, seen) == Join(Visit(cards, id, seen), VisitAll(cards, rest, Visit(cards, id, seen).seen))
  {
    assert ([id] + rest)[1..] == rest;
  }

  /** A prefix of the work is a traversal of its own. */
  lemma {:induction false} VisitAllAppends(cards: Cards, a: seq<string>, b: seq<string>, seen: set<string>)
    requires forall id :: id in a + b ==> id in cards
    ensures (forall id :: id in a ==> id in cards) && (forall id :: id in b ==> id in cards)
    ensures VisitAll(cards, a + b, seen) == Join(VisitAll(cards, a, seen), VisitAll(cards, b, VisitAll(cards, a, seen).seen))
    decreases |a|
  {
    assert forall id :: id in a || id in b ==> id in a + b;
    if a == [] {
      assert a + b == b;
      var all := VisitAll(cards, b, seen);
      assert Join(Trip([], seen), all) == all;
    } else {
      var head := Visit(cards, a[0], seen);
      assert a + b == [a[0]] + (a[1..] + b) && a == [a[0]] + a[1..];
      VisitAllAppends(cards, a[1..], b, head.seen);
      VisitFirst(cards, a[0], a[1..] + b, seen);
      VisitFirst(cards, a[0], a[1..], seen);
      var tail := VisitAll(cards, a[1..], head.seen);
      JoinAssociates(head, tail, VisitAll(cards, b, tail.seen));
    }
  }

  /** Popping a node seen before is no step at all. */
  lemma PopSeen(cards: Cards, id: string, rest: seq<string>, seen: set<string>)
    requires id in cards && id in seen
    requires forall c :: c in rest ==> c in cards
    requires forall c :: c in [id] + rest ==> c in cards
    ensures VisitAll(cards, [id] + rest, seen) == VisitAll(cards, rest, seen)
  {
    VisitFirst(cards, id, rest, seen);
    var after := VisitAll(cards, rest, seen);
    assert Join(Trip([], seen), after) == after;
  }

  /** Popping an unseen node and pushing its children is one step of the preorder. */
  lemma PopUnseen(cards: Cards, id: string, rest: seq<string>, seen: set<string>)
    requires id in cards && id !in seen
    requires forall c :: c in rest ==> c in cards
    requires forall c :: c in [id] + rest ==> c in cards
    requires forall c :: c in ChildrenOf(cards, id) + rest ==> c in cards
    ensures var below := VisitAll(cards, ChildrenOf(cards, id) + rest, seen + {id});
            VisitAll(cards, [id] + rest, seen) == Trip([id] + below.order, below.seen)
  {
    var children := ChildrenOf(cards, id);
    VisitFirst(cards, id, rest, seen);
    VisitAllAppends(cards, children, rest, seen + {id});
    var below := VisitAll(cards, children, seen + {id});
    JoinAssociates(Trip([id], seen), below, VisitAll(cards, rest, below.seen));
  }

  /** What is still to come of a traversal whose stack has its top at the end. */
  function Remaining(cards: Cards, stack: seq<string>, visited: set<string>): seq<string>
    requires forall id :: id in stack ==> id in cards
  {
    VisitAll(cards, Reversed(stack), visited).order
  }

  lemma PopStep(cards: Cards, below: seq<string>, id: string, visited: set<string>)
    requires id in cards && forall c :: c in below ==> c in cards
    ensures forall c :: c in below + [id] ==> c in cards
    ensures forall c :: c in below + Reversed(ChildrenOf(cards, id)) ==> c in cards
    ensures id in visited ==> Remaining(cards, below + [id], visited) == Remaining(cards, below, visited)
    ensures id !in visited ==>
              Remaining(cards, below + [id], visited) ==
              [id] + Remaining(cards, below + Reversed(ChildrenOf(cards, id)), visited + {id})
  {
    var children := ChildrenOf(cards, id);
    ReversedAppends(below, [id]);
    assert Reversed([id]) == [id];
    ReversedAppends(below, Reversed(children));
    ReversedTwice(children);
    var rest := Reversed(below);
    assert forall c :: c in [id] + rest <==> c == id || c in rest;
    assert forall c :: c in children + rest <==> c in children || c in rest;
    if id in visited {
      PopSeen(cards, id, rest, visited);
    } else {
      PopUnseen(cards, id, rest, visited);
    }
  }

  class CardIndex {
    var cards: Cards

    constructor ()
      ensures cards == map[]
    {
      cards := map[];
    }

    method Upsert(card: CardRecord)
      modifies this
      ensures cards == old(cards)[card.id := card]
      ensures forall parent :: parent != card.id && card.id !in Descendants(cards, parent) ==>
                Descendants(cards, parent) == Descendants(old(cards), parent)
      ensures card.id in old(cards) ==>
                forall parent :: parent != card.id ==>
                  (card.id in Descendants(cards, parent) <==> card.id in Descendants(old(cards), parent))
    {
      cards := cards[card.id := card];
      forall parent | parent != card.id
        ensures card.id !in Descendants(cards, parent) ==> Descendants(cards, parent) == Descendants(old(cards), parent)
        ensures card.id in old(cards) ==>
                  (card.id in Descendants(cards, parent) <==> card.id in Descendants(old(cards), parent))
      {
        UpsertElsewhere(old(cards), card, parent);
      }
    }

    /** All descendants of a card, in the order of the recursive child-first preorder. */
    method DescendantsOf(parent: string) returns (result: seq<string>)
      ensures result == Descendants(cards, parent)
    {
      result := [];
      var visited: set<string> := {};
      var stack := Reversed(ChildrenOf(cards, parent));
      ReversedTwice(ChildrenOf(cards, parent));
      while |stack| > 0
        invariant forall id :: id in stack ==> id in cards
        invariant result + Remaining(cards, stack, visited) == Descendants(cards, parent)
        decreases |Unseen(cards, visited)|, |stack|
      {
        var id := stack[|stack| - 1];
        assert stack == stack[..|stack| - 1] + [id];
        stack := stack[..|stack| - 1];
        PopStep(cards, stack, id, visited);
        if id !in visited {
          UnseenShrinks(cards, visited, id);
          ghost var rest := Remaining(cards, stack + Reversed(ChildrenOf(cards, id)), visited + {id});
          assert result + ([id] + rest) == (result + [id]) + rest;
          visited := visited + {id};
          result := result + [id];
          stack := stack + Reversed(ChildrenOf(cards, id));
        }
      }
    }
  }
}

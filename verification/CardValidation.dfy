/** The dependency check over parsed cards: a recursive depth-first search with visited and stack sets. */
module CardValidation {
  import opened Wrappers
  import opened Graph

  datatype Card = Card(id: string, dependsOn: seq<string>)

  datatype InvariantError =
    | MissingDependency(card: string, dependency: string)
    | DependencyCycle(card: string)

  /** The cards by id; of cards sharing an id the last one counts. */
  function ById(cards: seq<Card>): (g: Adjacency)
    ensures forall i :: 0 <= i < |cards| ==> cards[i].id in g
    ensures forall id :: id in g ==> exists i :: 0 <= i < |cards| && cards[i].id == id && cards[i].dependsOn == g[id]
  {
    if cards == [] then map[]
    else
      var n := |cards| - 1;
      ById(cards[..n])[cards[n].id := cards[n].dependsOn]
  }

  /** A card counts unless a later one has its id. */
  lemma {:induction false} LastCardCounts(cards: seq<Card>, i: nat)
    requires i < |cards| && forall j :: i < j < |cards| ==> cards[j].id != cards[i].id
    ensures ById(cards)[cards[i].id] == cards[i].dependsOn
  {
    var n := |cards| - 1;
    OneMoreCard(cards);
    if i < n {
      LastCardCounts(cards[..n], i);
      assert cards[n].id != cards[i].id;
    }
  }

  lemma OneMoreCard(cards: seq<Card>)
    requires cards != []
    ensures var n := |cards| - 1;
            ById(cards) == ById(cards[..n])[cards[n].id := cards[n].dependsOn]
  {
  }

  /** Every card's dependencies exist. */
  predicate AllPresent(cards: seq<Card>) {
    forall i, k :: 0 <= i < |cards| && 0 <= k < |cards[i].dependsOn| ==> cards[i].dependsOn[k] in ById(cards)
  }

  /** Successors of known nodes are known. */
  ghost predicate Total(g: Adjacency) {
    forall a, b :: Edge(g, a, b) ==> b in g
  }

  class DependencySearch {
    const byId: Adjacency
    var visited: set<string>
    var stack: set<string>

    /** The nodes of `stack`, from the root of the search to the current node. */
    ghost var trail: seq<string>

    constructor (byId: Adjacency)
      ensures this.byId == byId && visited == {} && stack == {} && trail == []
    {
      this.byId := byId;
      visited, stack, trail := {}, {}, [];
    }

    /** Visited nodes are done: nothing leads out of them and none of them is on a cycle. The stack is
        the path the search is on. */
    ghost predicate Valid()
      reads this
    {
      && Total(byId)
      && visited <= byId.Keys && stack <= byId.Keys
      && visited !! stack
      && ClosedUnder(byId, visited)
      && (forall a :: a in visited ==> !OnCycle(byId, a))
      && IsPath(byId, trail)
      && (forall a :: a in stack <==> a in trail)
    }

    /** Search from `id`; the error names a node that is on a cycle. */
    method VisitDependencies(id: string) returns (thrown: Option<InvariantError>)
      requires Valid() && id in byId
      requires trail != [] ==> Edge(byId, trail[|trail| - 1], id)
      modifies this
      ensures thrown.None? ==>
                && Valid() && stack == old(stack) && trail == old(trail)
                && old(visited) <= visited && id in visited
      ensures thrown.Some? ==> thrown.value.DependencyCycle? && OnCycle(byId, thrown.value.card)
      decreases byId.Keys - stack
    {
      if id in stack {
        TrailCloses(byId, trail, id);
        return Some(DependencyCycle(id));
      }
      if id in visited {
        return None;
      }
      ghost var outer := trail;
      ghost var before := visited;
      stack := stack + {id};
      trail := trail + [id];
      assert IsPath(byId, trail) by { Extends(byId, outer, id); }
      var dependencies := byId[id];
      for k := 0 to |dependencies|
        invariant Valid() && stack == old(stack) + {id} && trail == outer + [id]
        invariant before <= visited
        invariant forall j :: 0 <= j < k ==> dependencies[j] in visited
      {
        assert Edge(byId, id, dependencies[k]);
        thrown := VisitDependencies(dependencies[k]);
        if thrown.Some? {
          return;
        }
      }
      FinishedIsAcyclic(byId, visited, id);
      stack := stack - {id};
      trail := outer;
      visited := visited + {id};
      return None;
    }
  }

  lemma Extends(g: Adjacency, p: seq<string>, b: string)
    requires IsPath(g, p) && (p != [] ==> Edge(g, p[|p| - 1], b))
    ensures IsPath(g, p + [b])
  {
    var q := p + [b];
    forall i | 0 <= i < |q| - 1 ensures Edge(g, q[i], q[i + 1]) {
      if i < |p| - 1 { assert Edge(g, p[i], p[i + 1]); }
    }
  }

  /** An edge from the end of the trail back onto it closes a cycle. */
  lemma TrailCloses(g: Adjacency, trail: seq<string>, id: string)
    requires IsPath(g, trail) && id in trail
    requires Edge(g, trail[|trail| - 1], id)
    ensures OnCycle(g, id)
  {
    var k :| 0 <= k < |trail| && trail[k] == id;
    var p := trail[k..];
    forall i | 0 <= i < |p| - 1 ensures Edge(g, p[i], p[i + 1]) {
      assert Edge(g, trail[k + i], trail[k + i + 1]);
    }
    Extends(g, p, id);
    assert Walk(g, id, id, p + [id]);
  }

  /** A node whose successors are all done is done too. */
  lemma FinishedIsAcyclic(g: Adjacency, visited: set<string>, id: string)
    requires ClosedUnder(g, visited) && id in g && id !in visited
    requires forall j :: 0 <= j < |g[id]| ==> g[id][j] in visited
    ensures !OnCycle(g, id)
    ensures ClosedUnder(g, visited + {id})
  {
    forall p | Walk(g, id, id, p) ensures false {
      assert Edge(g, p[0], p[1]);
      var q := p[1..];
      forall i | 0 <= i < |q| - 1 ensures Edge(g, q[i], q[i + 1]) {
        assert Edge(g, p[i + 1], p[i + 2]);
      }
      WalkStaysInside(g, visited, q, |q| - 1);
    }
  }

  lemma PresentMeansTotal(cards: seq<Card>)
    requires AllPresent(cards)
    ensures Total(ById(cards))
  {
    var g := ById(cards);
    forall a, b | Edge(g, a, b) ensures b in g {
      var i :| 0 <= i < |cards| && cards[i].id == a && cards[i].dependsOn == g[a];
      var k :| 0 <= k < |g[a]| && g[a][k] == b;
      assert cards[i].dependsOn[k] in g;
    }
  }

  /** A node of a cycle has an edge, so it is a card. */
  lemma CyclesAreAmongCards(g: Adjacency, a: string)
    requires OnCycle(g, a)
    ensures a in g
  {
    var p :| Walk(g, a, a, p);
    assert Edge(g, p[0], p[1]);
  }

  /** Dependency `k` of card `i` is the first one that is missing, in the order of the cards and of their
      dependencies. */
  ghost predicate FirstMissing(cards: seq<Card>, i: nat, k: nat) {
    && i < |cards| && k < |cards[i].dependsOn| && cards[i].dependsOn[k] !in ById(cards)
    && (forall j :: 0 <= j < k ==> cards[i].dependsOn[j] in ById(cards))
    && forall h, j :: 0 <= h < i && 0 <= j < |cards[h].dependsOn| ==> cards[h].dependsOn[j] in ById(cards)
  }

  ghost predicate NamesMissing(cards: seq<Card>, e: InvariantError) {
    && e.MissingDependency?
    && exists i: nat, k: nat :: FirstMissing(cards, i, k) && cards[i].id == e.card && cards[i].dependsOn[k] == e.dependency
  }

  method CheckPresence(cards: seq<Card>) returns (thrown: Option<InvariantError>)
    ensures thrown.None? <==> AllPresent(cards)
    ensures thrown.Some? ==> NamesMissing(cards, thrown.value)
  {
    var byId := ById(cards);
    for i := 0 to |cards|
      invariant forall h, k :: 0 <= h < i && 0 <= k < |cards[h].dependsOn| ==> cards[h].dependsOn[k] in byId
    {
      var card := cards[i];
      for k := 0 to |card.dependsOn|
        invariant forall j :: 0 <= j < k ==> card.dependsOn[j] in byId
      {
        if card.dependsOn[k] !in byId {
          assert FirstMissing(cards, i, k);
          return Some(MissingDependency(card.id, card.dependsOn[k]));
        }
      }
    }
    return None;
  }

  lemma AllVisitedMeansAcyclic(g: Adjacency, visited: set<string>)
    requires forall a :: a in visited ==> !OnCycle(g, a)
    requires g.Keys <= visited
    ensures Acyclic(g)
  {
    forall a ensures !OnCycle(g, a) {
      if a !in g && OnCycle(g, a) {
        CyclesAreAmongCards(g, a);
        assert false;
      }
    }
  }

  method CheckCycles(cards: seq<Card>) returns (thrown: Option<InvariantError>)
    requires AllPresent(cards)
    ensures thrown.None? <==> Acyclic(ById(cards))
    ensures thrown.Some? ==> thrown.value.DependencyCycle? && OnCycle(ById(cards), thrown.value.card)
  {
    var byId := ById(cards);
    PresentMeansTotal(cards);
    var search := new DependencySearch(byId);
    for i := 0 to |cards|
      invariant search.Valid() && search.stack == {} && search.trail == []
      invariant forall h :: 0 <= h < i ==> cards[h].id in search.visited
    {
      thrown := search.VisitDependencies(cards[i].id);
      if thrown.Some? {
        return;
      }
    }
    assert byId.Keys <= search.visited;
    AllVisitedMeansAcyclic(byId, search.visited);
    return None;
  }

  /** Validation succeeds exactly when every dependency exists and the dependency graph is acyclic; a
      reported missing dependency is the first one missing, and a card reported for a cycle lies on one. */
  method ValidateParsedCards(cards: seq<Card>) returns (thrown: Option<InvariantError>)
    ensures thrown.None? <==> AllPresent(cards) && Acyclic(ById(cards))
    ensures thrown.Some? && thrown.value.MissingDependency? ==> NamesMissing(cards, thrown.value)
    ensures thrown.Some? && thrown.value.DependencyCycle? ==>
              AllPresent(cards) && OnCycle(ById(cards), thrown.value.card)
  {
    thrown := CheckPresence(cards);
    if thrown.None? {
      thrown := CheckCycles(cards);
    }
  }
}

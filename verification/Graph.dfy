/** Finite directed graphs as adjacency lists, and paths through them. */
module Graph {

  type Adjacency = map<string, seq<string>>

  predicate Edge(g: Adjacency, a: string, b: string) {
    a in g && b in g[a]
  }

  /** Consecutive nodes are joined by edges. */
  predicate IsPath(g: Adjacency, p: seq<string>) {
    forall i :: 0 <= i < |p| - 1 ==> Edge(g, p[i], p[i + 1])
  }

  /** A path of at least one edge from `a` to `b`. */
  ghost predicate Walk(g: Adjacency, a: string, b: string, p: seq<string>) {
    |p| >= 2 && p[0] == a && p[|p| - 1] == b && IsPath(g, p)
  }

  ghost predicate Reaches(g: Adjacency, a: string, b: string) {
    exists p :: Walk(g, a, b, p)
  }

  ghost predicate OnCycle(g: Adjacency, a: string) {
    Reaches(g, a, a)
  }

  ghost predicate Acyclic(g: Adjacency) {
    forall a :: !OnCycle(g, a)
  }

  /** Every successor of a node in `s` is in `s`. */
  ghost predicate ClosedUnder(g: Adjacency, s: set<string>) {
    forall a, b :: a in s && Edge(g, a, b) ==> b in s
  }

  /** A path cannot leave a closed set. */
  lemma {:induction false} WalkStaysInside(g: Adjacency, s: set<string>, p: seq<string>, k: nat)
    requires ClosedUnder(g, s) && IsPath(g, p)
    requires |p| > 0 && p[0] in s && k < |p|
    ensures p[k] in s
  {
    if k > 0 {
      WalkStaysInside(g, s, p, k - 1);
      assert Edge(g, p[k - 1], p[k]);
    }
  }

  lemma EdgeReaches(g: Adjacency, a: string, b: string)
    requires Edge(g, a, b)
    ensures Reaches(g, a, b)
  {
    assert Walk(g, a, b, [a, b]);
  }

  lemma ReachesFurther(g: Adjacency, a: string, b: string, c: string)
    requires Reaches(g, a, b) && Edge(g, b, c)
    ensures Reaches(g, a, c)
  {
    var p :| Walk(g, a, b, p);
    var q := p + [c];
    forall i | 0 <= i < |q| - 1 ensures Edge(g, q[i], q[i + 1]) {
      if i < |p| - 1 { assert Edge(g, p[i], p[i + 1]); }
    }
    assert Walk(g, a, c, q);
  }
}

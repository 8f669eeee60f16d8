/** Commits, ancestry, and what the two sides of a symmetric difference count. */
module CommitGraph {

  /** An object id, as Git prints it. */
  type Oid = string

  /** Each known commit with its parents. */
  datatype Graph = Graph(parents: map<Oid, set<Oid>>)

  /** Parents are known and come strictly earlier in some ranking: no commit is its own ancestor. */
  ghost predicate Ranked(g: Graph, rank: Oid -> nat) {
    forall c, p :: c in g.parents && p in g.parents[c] ==> p in g.parents && rank(p) < rank(c)
  }

  ghost predicate Acyclic(g: Graph) {
    exists rank :: Ranked(g, rank)
  }

  /** A walk from a commit to one of its ancestors, parent by parent. */
  ghost predicate Walk(g: Graph, path: seq<Oid>) {
    && path != []
    && (forall i :: 0 <= i < |path| ==> path[i] in g.parents)
    && (forall i :: 0 <= i < |path| - 1 ==> path[i + 1] in g.parents[path[i]])
  }

  ghost predicate WalkBetween(g: Graph, from: Oid, to: Oid, path: seq<Oid>) {
    Walk(g, path) && path[0] == from && path[|path| - 1] == to
  }

  /** `a` is `c` or one of its ancestors. */
  ghost predicate Ancestor(g: Graph, a: Oid, c: Oid) {
    exists path :: WalkBetween(g, c, a, path)
  }

  lemma AncestorReflexive(g: Graph, c: Oid)
    requires c in g.parents
    ensures Ancestor(g, c, c)
  {
    assert WalkBetween(g, c, c, [c]);
  }

  lemma AncestorTransitive(g: Graph, a: Oid, b: Oid, c: Oid)
    requires Ancestor(g, a, b) && Ancestor(g, b, c)
    ensures Ancestor(g, a, c)
  {
    var q :| WalkBetween(g, b, a, q);
    var p :| WalkBetween(g, c, b, p);
    var path := p + q[1..];
    forall i | 0 <= i < |path| - 1 ensures path[i + 1] in g.parents[path[i]] {
      if i >= |p| - 1 {
        assert path[i + 1] == q[i + 2 - |p|] && path[i] == q[i + 1 - |p|];
      }
    }
    assert WalkBetween(g, c, a, path);
  }

  /** Ranks fall along a walk. */
  lemma {:induction false} WalkDescends(g: Graph, rank: Oid -> nat, path: seq<Oid>)
    requires Ranked(g, rank) && Walk(g, path)
    ensures rank(path[|path| - 1]) + |path| - 1 <= rank(path[0])
  {
    if |path| > 1 {
      WalkDescends(g, rank, path[1..]);
    }
  }

  lemma AncestorAntisymmetric(g: Graph, a: Oid, c: Oid)
    requires Acyclic(g) && Ancestor(g, a, c) && Ancestor(g, c, a)
    ensures a == c
  {
    var rank :| Ranked(g, rank);
    var p :| WalkBetween(g, c, a, p);
    var q :| WalkBetween(g, a, c, q);
    WalkDescends(g, rank, p);
    WalkDescends(g, rank, q);
  }

  ghost function Ancestors(g: Graph, c: Oid): set<Oid> {
    set a | a in g.parents.Keys && Ancestor(g, a, c)
  }

  /** git rev-list --left-right --count left...right: what only the left side reaches. */
  ghost function OnlyLeft(g: Graph, left: Oid, right: Oid): nat {
    |Ancestors(g, left) - Ancestors(g, right)|
  }

  /** One side reaches nothing of its own exactly when it is an ancestor of the other. */
  lemma NothingOfItsOwn(g: Graph, left: Oid, right: Oid)
    requires left in g.parents && right in g.parents
    ensures OnlyLeft(g, left, right) == 0 <==> Ancestor(g, left, right)
  {
    AncestorReflexive(g, left);
    if Ancestor(g, left, right) {
      forall a | a in Ancestors(g, left) ensures a in Ancestors(g, right) {
        AncestorTransitive(g, a, left, right);
      }
      assert Ancestors(g, left) - Ancestors(g, right) == {};
    } else {
      assert left in Ancestors(g, left) - Ancestors(g, right);
    }
  }
}

/**
 Collecting the request properties of a schema that refers to other schemas. The walk shares one
 `seen` set between siblings, so a schema met twice contributes once and cycles end.
 */
module SpecDrift {
  import opened Wrappers

  /** Identity of a schema object. */
  type Node = nat

  /** A reference contributes nothing of its own; one without a name is an error. */
  datatype Schema = Reference(target: Node) | NamelessReference | Composite(own: set<string>, parts: seq<Node>)

  /** The schema objects of a document; anything else a reference or a part names is no schema. */
  type Graph = map<Node, Schema>

  function Parts(s: Schema): set<Node> {
    match s
    case Reference(target) => {target}
    case NamelessReference => {}
    case Composite(_, parts) => set p | p in parts
  }

  function Own(s: Schema): set<string> {
    if s.Composite? then s.own else {}
  }

  // ---------------------------------------------------------------- reachability

  ghost predicate IsPath(g: Graph, p: seq<Node>) {
    && p != []
    && (forall i | 0 <= i < |p| :: p[i] in g)
    && (forall i | 0 < i < |p| :: p[i] in Parts(g[p[i - 1]]))
  }

  ghost predicate Leads(g: Graph, p: seq<Node>, n: Node, m: Node) {
    IsPath(g, p) && p[0] == n && p[|p| - 1] == m
  }

  ghost predicate Reachable(g: Graph, n: Node, m: Node) {
    exists p :: Leads(g, p, n, m)
  }

  lemma ReachesItself(g: Graph, n: Node)
    requires n in g
    ensures Reachable(g, n, n)
  {
    assert Leads(g, [n], n, n);
  }

  lemma ReachesThroughPart(g: Graph, n: Node, c: Node, m: Node)
    requires n in g && c in Parts(g[n]) && Reachable(g, c, m)
    ensures Reachable(g, n, m)
  {
    var p :| Leads(g, p, c, m);
    assert Leads(g, [n] + p, n, m);
  }

  ghost predicate Closed(g: Graph, s: set<Node>, from: set<Node>) {
    forall m, c | m in from && m in g && c in Parts(g[m]) && c in g :: c in s
  }

  lemma {:induction false} ClosedHoldsPath(g: Graph, s: set<Node>, p: seq<Node>)
    requires IsPath(g, p) && p[0] in s && Closed(g, s, s)
    ensures p[|p| - 1] in s
  {
    if |p| > 1 {
      assert p[1] in Parts(g[p[0]]);
      assert forall i | 0 < i < |p[1..]| :: p[1..][i] == p[i + 1] && p[1..][i - 1] == p[i];
      ClosedHoldsPath(g, s, p[1..]);
    }
  }

  ghost predicate Contributes(g: Graph, s: set<Node>, k: string) {
    exists m | m in s && m in g :: k in Own(g[m])
  }

  // ---------------------------------------------------------------- the walk

  class Walk {
    var seen: set<Node>

    constructor ()
      ensures seen == {}
    {
      seen := {};
    }

    /** The properties of everything first met in this call; none when a nameless reference was met. */
    method Collect(g: Graph, n: Node) returns (r: Option<set<string>>)
      requires seen <= g.Keys
      modifies this
      ensures old(seen) <= seen <= g.Keys
      ensures n in g && r.Some? ==> n in seen
      ensures forall m | m in seen - old(seen) :: Reachable(g, n, m)
      ensures r.Some? ==> Closed(g, seen, seen - old(seen))
      ensures r.Some? ==> forall m | m in seen - old(seen) :: !g[m].NamelessReference?
      ensures r.Some? ==> forall k :: k in r.value <==> Contributes(g, seen - old(seen), k)
      ensures r.None? ==> exists m | m in g :: Reachable(g, n, m) && g[m].NamelessReference?
      decreases g.Keys - seen
    {
      if n !in g || n in seen { return Some({}); }
      ghost var before := seen;
      seen := seen + {n};
      ReachesItself(g, n);
      match g[n] {
        case NamelessReference => return None;
        case Reference(target) =>
          r := Collect(g, target);
          forall m | Reachable(g, target, m) ensures Reachable(g, n, m) { ReachesThroughPart(g, n, target, m); }
          assert r.Some? ==> seen - before == {n} + (seen - before - {n});
        case Composite(own, parts) =>
          var properties := own;
          for i := 0 to |parts|
            invariant before + {n} <= seen <= g.Keys
            invariant forall k | 0 <= k < i :: parts[k] in g ==> parts[k] in seen
            invariant forall m | m in seen - before :: Reachable(g, n, m) && !g[m].NamelessReference?
            invariant Closed(g, seen, seen - before - {n})
            invariant forall k :: k in properties <==> Contributes(g, seen - before, k)
          {
            ghost var met := seen;
            var more := Collect(g, parts[i]);
            forall m | Reachable(g, parts[i], m) ensures Reachable(g, n, m) { ReachesThroughPart(g, n, parts[i], m); }
            if more.None? { return None; }
            assert seen - before == (met - before) + (seen - met);
            properties := properties + more.value;
          }
          r := Some(properties);
      }
    }
  }

  /** Exactly the properties of every schema the root reaches, for every document, cyclic or not. */
  method CollectProperties(g: Graph, root: Node) returns (r: Option<set<string>>)
    ensures r.Some? ==> forall k :: k in r.value <==> exists m | m in g :: Reachable(g, root, m) && k in Own(g[m])
    ensures r.None? <==> exists m | m in g :: Reachable(g, root, m) && g[m].NamelessReference?
  {
    var walk := new Walk();
    r := walk.Collect(g, root);
    if r.Some? {
      forall m | m in g && Reachable(g, root, m) ensures m in walk.seen {
        var p :| Leads(g, p, root, m);
        ClosedHoldsPath(g, walk.seen, p);
      }
    }
  }
}

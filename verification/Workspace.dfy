/**
 Write-scope rollback of a disposable workspace: what a shell command changed is compared with
 the snapshot taken before it, and every change the write scope does not allow is undone,
 deepest path first.
 */
module Workspace {
  import opened Wrappers
  import opened FileTree

  /** What the last matching scope pattern says of a path. */
  datatype Verdict = Allow | Deny | Silent

  // ---------------------------------------------------------------- scope rule

  /** A scope pattern, already compiled; a leading `!` negates it. */
  datatype Pattern = Pattern(negated: bool, matches: Path -> bool)

  /** The pattern at `i` is the last one that matches. */
  ghost predicate LastMatch(scope: seq<Pattern>, rel: Path, i: nat) {
    i < |scope| && scope[i].matches(rel) && forall k | i < k < |scope| :: !scope[k].matches(rel)
  }

  ghost predicate VerdictIs(scope: seq<Pattern>, rel: Path, v: Verdict) {
    match v
    case Allow => exists i: nat :: LastMatch(scope, rel, i) && !scope[i].negated
    case Deny => exists i: nat :: LastMatch(scope, rel, i) && scope[i].negated
    case Silent => forall i: nat :: !LastMatch(scope, rel, i)
  }

  /** The two passes over the scope, for a permission and for an explicit refusal, as one verdict. */
  method ScopeVerdict(scope: seq<Pattern>, rel: Path) returns (allowed: bool, denied: bool)
    ensures allowed <==> VerdictIs(scope, rel, Allow)
    ensures denied <==> VerdictIs(scope, rel, Deny)
    ensures !allowed && !denied <==> VerdictIs(scope, rel, Silent)
    ensures !(allowed && denied)
  {
    allowed, denied := false, false;
    for i := 0 to |scope|
      invariant !(allowed && denied)
      invariant allowed ==> exists k: nat | k < i :: LastMatch(scope[..i], rel, k) && !scope[k].negated
      invariant denied ==> exists k: nat | k < i :: LastMatch(scope[..i], rel, k) && scope[k].negated
      invariant !allowed && !denied ==> forall k | 0 <= k < i :: !scope[k].matches(rel)
    {
      ghost var was := scope[..i];
      if scope[i].matches(rel) {
        allowed, denied := !scope[i].negated, scope[i].negated;
        assert LastMatch(scope[..i + 1], rel, i);
      } else {
        assert forall k: nat | LastMatch(was, rel, k) :: LastMatch(scope[..i + 1], rel, k);
      }
    }
    assert scope[..|scope|] == scope;
    LastMatchIsOne(scope, rel);
  }

  lemma LastMatchIsOne(scope: seq<Pattern>, rel: Path)
    ensures forall i: nat, k: nat | LastMatch(scope, rel, i) && LastMatch(scope, rel, k) :: i == k
  {
  }

  function Changed(before: Tree, after: Tree): set<Path> {
    set p | p in before.Keys + after.Keys && At(before, p) != At(after, p)
  }

  function ChangedBelow(p: Path, changed: set<Path>): set<Path> {
    set q | q in changed && p < q
  }

  /** A changed path is allowed by name, or as a created directory whose changed contents are all allowed. */
  predicate Allowed(p: Path, verdict: Path -> Verdict, changed: set<Path>, before: Tree, after: Tree)
    decreases ChangedBelow(p, changed)
  {
    if verdict(p).Allow? then true
    else if verdict(p).Deny? then false
    else if p in before then false
    else if !IsDirectory(after, p) then false
    else
      var below := ChangedBelow(p, changed);
      below != {} && forall q | q in below ::
        ChangedBelowShrinks(p, q, changed);
        Allowed(q, verdict, changed, before, after)
  }

  lemma BelowTransitive(p: Path, q: Path, r: Path)
    requires p < q < r
    ensures p < r
  {
    assert r[..|p|] == q[..|p|] == p;
  }

  /** The created-directory rule with its recursion unfolded once and for all. */
  predicate Carried(p: Path, verdict: Path -> Verdict, changed: set<Path>, before: Tree, after: Tree) {
    verdict(p).Silent? && p !in before && IsDirectory(after, p) && ChangedBelow(p, changed) != {}
  }

  predicate AllowedFlat(p: Path, verdict: Path -> Verdict, changed: set<Path>, before: Tree, after: Tree) {
    || verdict(p).Allow?
    || (&& Carried(p, verdict, changed, before, after)
        && forall q | q in ChangedBelow(p, changed) ::
             verdict(q).Allow? || Carried(q, verdict, changed, before, after))
  }

  lemma {:induction false} AllowedIsFlat(p: Path, verdict: Path -> Verdict, changed: set<Path>, before: Tree, after: Tree)
    ensures Allowed(p, verdict, changed, before, after) <==> AllowedFlat(p, verdict, changed, before, after)
    decreases ChangedBelow(p, changed)
  {
    var below := ChangedBelow(p, changed);
    forall q | q in below
      ensures Allowed(q, verdict, changed, before, after) <==> AllowedFlat(q, verdict, changed, before, after)
      ensures forall r | r in ChangedBelow(q, changed) :: r in below
    {
      ChangedBelowShrinks(p, q, changed);
      AllowedIsFlat(q, verdict, changed, before, after);
    }
  }

  /**
   What the rule says of a changed path, by its verdict alone where that settles it: an allowed one is
   authorized, a denied one never is, and one that no pattern names is authorized only as a created
   directory with something changed in it, all of which is authorized.
   */
  lemma UnauthorizedMeans(verdict: Path -> Verdict, before: Tree, after: Tree, p: Path)
    requires At(before, p) != At(after, p)
    ensures verdict(p) == Allow ==> p !in Unauthorized(verdict, before, after)
    ensures verdict(p) == Deny ==> p in Unauthorized(verdict, before, after)
    ensures verdict(p) == Silent ==>
              (p !in Unauthorized(verdict, before, after) <==>
               && p !in before && p in after && after[p].Directory?
               && (exists q :: p < q && At(before, q) != At(after, q))
               && forall q | p < q && At(before, q) != At(after, q) :: q !in Unauthorized(verdict, before, after))
  {
    var changed := Changed(before, after);
    assert forall q :: q in changed <==> At(before, q) != At(after, q);
    assert p in changed;
    if q :| p < q && At(before, q) != At(after, q) { assert q in ChangedBelow(p, changed); }
    if ChangedBelow(p, changed) != {} { var q :| q in ChangedBelow(p, changed); assert p < q; }
  }

  function Unauthorized(verdict: Path -> Verdict, before: Tree, after: Tree): set<Path> {
    set p | p in Changed(before, after) && !Allowed(p, verdict, Changed(before, after), before, after)
  }

  // ---------------------------------------------------------------- what one restoration does

  /** The tree after putting one path back to its snapshot state; an opaque entry is only removed. */
  function Restored(t: Tree, before: Tree, p: Path): Tree {
    if p !in before then RemoveTree(t, p)
    else if before[p].Directory? && IsDirectory(t, p) then t
    else
      var base := WithAncestors(RemoveTree(t, p), p);
      if before[p].Other? then base else base[p := before[p]]
  }

  /** The state rollback aims at for a path. */
  function Goal(before: Tree, p: Path): Option<Entry> {
    if p in before && before[p].Other? then None else At(before, p)
  }

  lemma RestoredKeepsShape(t: Tree, before: Tree, p: Path)
    requires WellFormed(t) && p != []
    ensures WellFormed(Restored(t, before, p))
  {
    RemoveTreeKeepsShape(t, p);
    var base := WithAncestors(RemoveTree(t, p), p);
    WithAncestorsKeepsShape(RemoveTree(t, p), p);
    AncestorsArePrefixes(p);
    if p in before && !before[p].Other? {
      assert p !in base;
      AddGrounded(base, p, before[p]);
    }
  }

  /** Restoring a path settles it, and moves any other path only onto its own snapshot state. */
  lemma RestoredMovesTowardSnapshot(t: Tree, before: Tree, p: Path, q: Path)
    requires WellFormed(t) && WellFormed(before) && p != []
    ensures At(Restored(t, before, p), p) == Goal(before, p)
    ensures At(Restored(t, before, p), q) != At(t, q) ==>
              && At(Restored(t, before, p), q) == Goal(before, q)
              && (q != p ==> At(before, q) == Goal(before, q))
              && (p <= q || (q != [] && q < p && p in before && IsDirectory(before, q)))
  {
    if p in before {
      ClearedAt(t, p, q);
      ClearedAt(t, p, p);
    }
    if p <= q && q != p {
      assert p < q;
      if q in before { assert p in before && before[p].Directory?; }
      if !IsDirectory(t, p) && q in t { NothingBelow(t, p, q); }
    } else if q != [] && q < p && p in before {
      assert q in before && before[q].Directory?;
    }
  }

  // ---------------------------------------------------------------- what many restorations come to

  /** The entry at a path once `done` has been restored, deepest path first. */
  function UndoneAt(before: Tree, after: Tree, done: set<Path>, q: Path): Option<Entry> {
    if q in done then Goal(before, q)
    else if exists u | u in done :: u < q && !IsDirectory(before, u) then None
    else if exists u | u in done && u in before :: q < u then Some(Directory)
    else At(after, q)
  }

  function Undone(before: Tree, after: Tree, done: set<Path>): Tree {
    map q | q in before.Keys + after.Keys && UndoneAt(before, after, done, q).Some? :: UndoneAt(before, after, done, q).value
  }

  lemma UndoneHas(before: Tree, after: Tree, done: set<Path>, q: Path)
    requires WellFormed(before) && WellFormed(after) && q != []
    ensures At(Undone(before, after, done), q) == UndoneAt(before, after, done, q)
  {
    if UndoneAt(before, after, done, q).Some? && q !in before && q !in after {
      assert exists u | u in done && u in before :: q < u;
    }
  }

  lemma NothingUndone(before: Tree, after: Tree)
    requires WellFormed(before) && WellFormed(after)
    ensures Undone(before, after, {}) == after
  {
    forall q ensures At(Undone(before, after, {}), q) == At(after, q) {
      if q != [] { UndoneHas(before, after, {}, q); }
    }
    SameEntries(Undone(before, after, {}), after);
  }

  lemma SameEntries(t: Tree, u: Tree)
    requires forall q :: At(t, q) == At(u, q)
    ensures t == u
  {
    forall q ensures q in t <==> q in u { assert At(t, q) == At(u, q); }
    forall q | q in t ensures t[q] == u[q] { assert At(t, q) == At(u, q); }
  }

  /** One more restoration, no deeper than those before it, at one path of the tree. */
  lemma UndoneStepAt(before: Tree, after: Tree, done: set<Path>, t: Tree, rel: Path, q: Path)
    requires WellFormed(before) && WellFormed(after) && WellFormed(t) && rel != [] && q != [] && rel !in done
    requires forall u | u in done :: |u| >= |rel|
    requires forall p | p != [] :: At(t, p) == UndoneAt(before, after, done, p)
    ensures At(Restored(t, before, rel), q) == UndoneAt(before, after, done + {rel}, q)
  {
    assert At(t, q) == UndoneAt(before, after, done, q) && At(t, rel) == UndoneAt(before, after, done, rel);
    if rel in before { ClearedAt(t, rel, q); }
    if rel == q {
      RestoredMovesTowardSnapshot(t, before, rel, q);
    } else if rel < q {
      BelowRestored(before, after, done, t, rel, q);
    } else if q < rel {
      AboveRestored(before, after, done, t, rel, q);
    }
  }

  lemma BelowRestored(before: Tree, after: Tree, done: set<Path>, t: Tree, rel: Path, q: Path)
    requires WellFormed(before) && WellFormed(after) && WellFormed(t) && rel != [] && rel !in done && rel < q
    requires At(t, q) == UndoneAt(before, after, done, q) && At(t, rel) == UndoneAt(before, after, done, rel)
    ensures At(Restored(t, before, rel), q) == UndoneAt(before, after, done + {rel}, q)
  {
    if rel in before { ClearedAt(t, rel, q); }
    assert q in before ==> IsDirectory(before, rel);
    if !IsDirectory(before, rel) {
      assert rel in done + {rel};
    } else if !IsDirectory(t, rel) {
      assert q !in t;
    }
  }

  lemma AboveRestored(before: Tree, after: Tree, done: set<Path>, t: Tree, rel: Path, q: Path)
    requires WellFormed(before) && WellFormed(after) && WellFormed(t) && rel != [] && q != [] && rel !in done && q < rel
    requires forall u | u in done :: |u| >= |rel|
    requires At(t, q) == UndoneAt(before, after, done, q) && At(t, rel) == UndoneAt(before, after, done, rel)
    ensures At(Restored(t, before, rel), q) == UndoneAt(before, after, done + {rel}, q)
  {
    if rel in before {
      ClearedAt(t, rel, q);
      assert rel in done + {rel};
    }
  }

  /** Restoring deepest first gives the tree that the closed form describes. */
  lemma UndoneStep(before: Tree, after: Tree, done: set<Path>, rel: Path)
    requires WellFormed(before) && WellFormed(after) && rel != [] && rel !in done
    requires WellFormed(Undone(before, after, done)) && forall u | u in done :: |u| >= |rel|
    ensures Restored(Undone(before, after, done), before, rel) == Undone(before, after, done + {rel})
    ensures WellFormed(Undone(before, after, done + {rel}))
  {
    var t := Undone(before, after, done);
    RestoredKeepsShape(t, before, rel);
    forall p | p != [] ensures At(t, p) == UndoneAt(before, after, done, p) { UndoneHas(before, after, done, p); }
    forall q ensures At(Restored(t, before, rel), q) == At(Undone(before, after, done + {rel}), q) {
      if q != [] {
        UndoneStepAt(before, after, done, t, rel, q);
        UndoneHas(before, after, done + {rel}, q);
      }
    }
    SameEntries(Restored(t, before, rel), Undone(before, after, done + {rel}));
  }

  // ---------------------------------------------------------------- the order of restoration

  /** Deeper first, and in code-unit order among paths of one depth. */
  predicate Sooner(lt: (Path, Path) -> bool, p: Path, q: Path) {
    |p| > |q| || (|p| == |q| && lt(p, q))
  }

  /** What is restored before a path. */
  function Earlier(lt: (Path, Path) -> bool, paths: set<Path>, p: Path): set<Path> {
    set u | u in paths && Sooner(lt, u, p)
  }

  /** The rollback of `paths` stops at `p`: on the tree it has made by then, a prefix of `p` cannot be examined. */
  predicate StopsAt(lt: (Path, Path) -> bool, links: Links, before: Tree, after: Tree, paths: set<Path>, p: Path) {
    p in paths && Blocked(Undone(before, after, Earlier(lt, paths, p)), links, p)
  }

  function Prefix(order: seq<Path>, i: nat): set<Path>
    requires i <= |order|
  {
    set p | p in order[..i]
  }

  lemma PrefixIsEarlier(lt: (Path, Path) -> bool, order: seq<Path>, i: nat)
    requires StrictTotal(lt) && i < |order|
    requires forall k, j :: 0 <= k < j < |order| ==> Sooner(lt, order[k], order[j])
    ensures Prefix(order, i) == Earlier(lt, Prefix(order, |order|), order[i])
    ensures order[i] !in Prefix(order, i) && Prefix(order, i + 1) == Prefix(order, i) + {order[i]}
    ensures forall u | u in Prefix(order, i) :: |u| >= |order[i]|
  {
    var all := Prefix(order, |order|);
    forall u | u in all ensures u in Prefix(order, i) <==> Sooner(lt, u, order[i]) {
      var k :| 0 <= k < |order| && order[k] == u;
      if k < i { assert order[..i][k] == u; }
      if u in Prefix(order, i) {
        var j :| 0 <= j < i && order[..i][j] == u;
        assert Sooner(lt, order[j], order[i]);
      }
    }
    assert order[..i + 1] == order[..i] + [order[i]];
  }

  lemma FirstExists(lt: (Path, Path) -> bool, paths: set<Path>) returns (p: Path)
    requires StrictTotal(lt) && paths != {}
    ensures p in paths && forall q | q in paths :: q == p || Sooner(lt, p, q)
  {
    p :| p in paths;
    if paths != {p} {
      var r := FirstExists(lt, paths - {p});
      if Sooner(lt, r, p) { p := r; }
      else {
        assert Sooner(lt, p, r);
        forall q | q in paths ensures q == p || Sooner(lt, p, q) {
          assert q != p ==> q == r || Sooner(lt, r, q);
        }
      }
    }
  }

  /** The unauthorized paths in the order of their restoration. */
  method DeepestFirst(lt: (Path, Path) -> bool, paths: set<Path>) returns (order: seq<Path>)
    requires StrictTotal(lt)
    ensures Prefix(order, |order|) == paths && forall p :: p in order <==> p in paths
    ensures forall i, j :: 0 <= i < j < |order| ==> Sooner(lt, order[i], order[j])
  {
    order := [];
    var rest := paths;
    while rest != {}
      invariant rest <= paths
      invariant forall p :: p in order <==> p in paths - rest
      invariant forall i, p :: 0 <= i < |order| && p in rest ==> Sooner(lt, order[i], p)
      invariant forall i, j :: 0 <= i < j < |order| ==> Sooner(lt, order[i], order[j])
    {
      ghost var _ := FirstExists(lt, rest);
      var p :| p in rest && forall q | q in rest :: q == p || Sooner(lt, p, q);
      order, rest := order + [p], rest - {p};
    }
    assert order[..|order|] == order;
  }

  lemma LeastExists(lt: (Path, Path) -> bool, paths: set<Path>) returns (p: Path)
    requires StrictTotal(lt) && paths != {}
    ensures p in paths && forall q | q in paths :: q == p || lt(p, q)
  {
    p :| p in paths;
    if paths != {p} {
      var r := LeastExists(lt, paths - {p});
      if lt(r, p) { p := r; }
    }
  }

  /** The violation names the first path that is not a directory, or the first of all when all are. */
  method ReportedPath(lt: (Path, Path) -> bool, unauthorized: set<Path>, after: Tree) returns (path: Path)
    requires StrictTotal(lt) && unauthorized != {}
    ensures path in unauthorized
    ensures IsDirectory(after, path) ==> forall q | q in unauthorized :: IsDirectory(after, q) && (q == path || lt(path, q))
    ensures !IsDirectory(after, path) ==> forall q | q in unauthorized && !IsDirectory(after, q) :: q == path || lt(path, q)
  {
    var files := set p | p in unauthorized && !IsDirectory(after, p);
    var among := if files != {} then files else unauthorized;
    ghost var _ := LeastExists(lt, among);
    path :| path in among && forall q | q in among :: q == path || lt(path, q);
    assert forall q | q in unauthorized && !IsDirectory(after, q) :: q in files;
  }

  // ---------------------------------------------------------------- enforcement

  datatype Outcome = Clean | Violation(path: Path) | Aborted

  class FixtureWorkspace {
    const verdict: Path -> Verdict
    const lt: (Path, Path) -> bool
    const links: Links
    var tree: Tree

    constructor (verdict: Path -> Verdict, lt: (Path, Path) -> bool, links: Links, tree: Tree)
      ensures this.verdict == verdict && this.lt == lt && this.links == links && this.tree == tree
    {
      this.verdict, this.lt, this.links, this.tree := verdict, lt, links, tree;
    }

    method RemoveEntry(p: Path)
      requires Grounded(tree, p)
      modifies this`tree
      ensures tree == RemoveTree(old(tree), p)
    {
      tree := RemoveTree(tree, p);
    }

    method AddEntry(p: Path, e: Entry)
      requires Grounded(tree, p) && p !in tree
      modifies this`tree
      ensures tree == old(tree)[p := e]
    {
      tree := tree[p := e];
    }

    /** The walk over every prefix of the path; false when an lstat fails outright. */
    method ReachEveryPrefix(rel: Path) returns (ok: bool)
      ensures ok <==> !Blocked(tree, links, rel)
    {
      for i := 1 to |rel| + 1
        invariant forall k | 0 < k < i && k <= |rel| :: !Lstat(tree, links, rel[..k]).Fault?
      {
        if Lstat(tree, links, rel[..i]).Fault? { return false; }
      }
      return true;
    }

    /** Every ancestor is a real directory; a link met on the way down is never walked through. */
    method HasRealDirectoryAncestors(rel: Path) returns (grounded: bool)
      ensures grounded <==> forall q :: q in Ancestors(rel) ==> IsDirectory(tree, q)
    {
      if rel == [] { return true; }
      for i := 1 to |rel|
        invariant forall k | 0 < k < i && k < |rel| :: IsDirectory(tree, rel[..k])
      {
        AncestorsOfPrefix(rel, i);
        GroundedLstat(tree, links, rel[..i]);
        if Lstat(tree, links, rel[..i]) != Present(Directory) {
          assert rel[..i] in Ancestors(rel);
          return false;
        }
      }
      return true;
    }

    /** A real directory at the path, whatever was there. */
    method MakeDirectory(p: Path)
      requires WellFormed(tree) && Grounded(tree, p)
      modifies this`tree
      ensures tree == old(tree)[p := Directory]
    {
      ReplaceNonDirectory(tree, p);
      GroundedLstat(tree, links, p);
      if Lstat(tree, links, p) != Present(Directory) {
        RemoveEntry(p);
        AddEntry(p, Directory);
      }
    }

    method RestoreRealAncestors(rel: Path)
      requires WellFormed(tree) && rel != []
      modifies this`tree
      ensures tree == WithAncestors(old(tree), rel)
      ensures WellFormed(tree) && Grounded(tree, rel)
    {
      for i := 1 to |rel|
        invariant WellFormed(tree)
        invariant tree == WithAncestors(old(tree), rel[..i])
      {
        WithAncestorsStep(old(tree), rel, i);
        MakeDirectory(rel[..i]);
      }
      assert rel[..|rel|] == rel;
      WithAncestorsKeepsShape(old(tree), rel);
    }

    /** Puts one path back; false when an lstat below a non-directory ended the attempt. */
    method RestoreEntry(rel: Path, before: Tree) returns (ok: bool)
      requires WellFormed(tree) && WellFormed(before) && rel != []
      modifies this`tree
      ensures ok <==> !Blocked(old(tree), links, rel)
      ensures !ok ==> tree == old(tree)
      ensures ok ==> tree == Restored(old(tree), before, rel) && WellFormed(tree)
    {
      ok := ReachEveryPrefix(rel);
      if !ok { return; }
      RestoredKeepsShape(tree, before, rel);
      AncestorsArePrefixes(rel);
      if rel !in before {
        var grounded := HasRealDirectoryAncestors(rel);
        if grounded {
          RemoveEntry(rel);
        } else {
          RemoveMissing(tree, rel);
        }
        return;
      }
      ClearAfterAncestors(tree, rel);
      if rel in tree { AncestorsAlreadyThere(tree, rel); }
      RestoreRealAncestors(rel);
      GroundedLstat(tree, links, rel);
      if before[rel].Directory? {
        if Lstat(tree, links, rel) != Present(Directory) {
          RemoveEntry(rel);
          AddEntry(rel, Directory);
        }
        return;
      }
      RemoveEntry(rel);
      if !before[rel].Other? {
        AddEntry(rel, before[rel]);
      }
    }

    /**
     Undoes every change the scope does not allow, deepest path first, and reports one of them. It
     stops exactly when some path cannot be examined on the tree that the paths before it have left.
     */
    method EnforceWriteScope(before: Tree) returns (r: Outcome)
      requires WellFormed(tree) && WellFormed(before) && StrictTotal(lt)
      modifies this`tree
      ensures WellFormed(tree)
      ensures r.Clean? <==> Unauthorized(verdict, before, old(tree)) == {}
      ensures r.Clean? ==> tree == old(tree)
      ensures r.Aborted? <==> exists p :: StopsAt(lt, links, before, old(tree), Unauthorized(verdict, before, old(tree)), p)
      ensures r.Aborted? ==>
                var all := Unauthorized(verdict, before, old(tree));
                exists p ::
                  && StopsAt(lt, links, before, old(tree), all, p) && tree == Undone(before, old(tree), Earlier(lt, all, p))
                  && RolledBack(before, old(tree), Earlier(lt, all, p), tree)
      ensures r.Violation? ==>
                var all := Unauthorized(verdict, before, old(tree));
                && tree == Undone(before, old(tree), all) && RolledBack(before, old(tree), all, tree)
                && r.path in all
                && (IsDirectory(old(tree), r.path) ==> forall q | q in all :: IsDirectory(old(tree), q) && (q == r.path || lt(r.path, q)))
                && (!IsDirectory(old(tree), r.path) ==> forall q | q in all && !IsDirectory(old(tree), q) :: q == r.path || lt(r.path, q))
    {
      var after, unauthorized := tree, Unauthorized(verdict, before, tree);
      if unauthorized == {} { return Clean; }
      var order := DeepestFirst(lt, unauthorized);
      assert forall p | p in order :: p in unauthorized && p in before.Keys + after.Keys;
      var ok := RestoreInOrder(order, before);
      if !ok {
        ghost var p :| StopsAt(lt, links, before, after, unauthorized, p) && tree == Undone(before, after, Earlier(lt, unauthorized, p));
        UndoneIsRolledBack(before, after, Earlier(lt, unauthorized, p));
        return Aborted;
      }
      UndoneIsRolledBack(before, after, unauthorized);
      var path := ReportedPath(lt, unauthorized, after);
      return Violation(path);
    }

    method RestoreInOrder(order: seq<Path>, before: Tree) returns (ok: bool)
      requires WellFormed(tree) && WellFormed(before) && StrictTotal(lt)
      requires forall p | p in order :: p != []
      requires forall i, j :: 0 <= i < j < |order| ==> Sooner(lt, order[i], order[j])
      modifies this`tree
      ensures WellFormed(tree)
      ensures ok <==> forall p :: !StopsAt(lt, links, before, old(tree), Prefix(order, |order|), p)
      ensures ok ==> tree == Undone(before, old(tree), Prefix(order, |order|))
      ensures !ok ==>
                var all := Prefix(order, |order|);
                exists p :: StopsAt(lt, links, before, old(tree), all, p) && tree == Undone(before, old(tree), Earlier(lt, all, p))
    {
      ghost var after, all := tree, Prefix(order, |order|);
      NothingUndone(before, after);
      assert Prefix(order, 0) == {};
      for i := 0 to |order|
        invariant WellFormed(tree) && tree == Undone(before, after, Prefix(order, i))
        invariant forall k | 0 <= k < i :: !StopsAt(lt, links, before, after, all, order[k])
      {
        var rel := order[i];
        assert rel in order && rel != [] && rel in all;
        PrefixIsEarlier(lt, order, i);
        UndoneStep(before, after, Prefix(order, i), rel);
        ok := RestoreEntry(rel, before);
        if !ok {
          assert StopsAt(lt, links, before, after, all, rel);
          return;
        }
      }
      forall p ensures !StopsAt(lt, links, before, after, all, p) {
        if p in all { var k :| 0 <= k < |order| && order[k] == p; }
      }
      ok := true;
    }
  }

  lemma AncestorsOfPrefix(rel: Path, i: nat)
    requires 0 < i < |rel|
    ensures forall q :: q in Ancestors(rel[..i]) <==> exists k | 0 < k < i :: q == rel[..k]
  {
    assert forall k | 0 < k < i :: rel[..i][..k] == rel[..k];
  }

  /** The tree agrees with the command's result except where a restored path took it back to the snapshot. */
  ghost predicate Touched(before: Tree, done: set<Path>, q: Path) {
    exists u | u in done :: u <= q || (q < u && IsDirectory(before, q))
  }

  ghost predicate Moved(before: Tree, done: set<Path>, t: Tree, q: Path) {
    && At(t, q) == Goal(before, q)
    && (q !in done ==> At(before, q) == Goal(before, q))
    && Touched(before, done, q)
  }

  ghost predicate RolledBack(before: Tree, after: Tree, done: set<Path>, t: Tree) {
    && WellFormed(t)
    && (forall q | q in done :: At(t, q) == Goal(before, q))
    && (forall q :: At(t, q) == At(after, q) || Moved(before, done, t, q))
  }

  /** The closed form moves a path only onto its own snapshot state. */
  lemma UndoneIsRolledBack(before: Tree, after: Tree, done: set<Path>)
    requires WellFormed(before) && WellFormed(after) && WellFormed(Undone(before, after, done)) && [] !in done
    ensures RolledBack(before, after, done, Undone(before, after, done))
  {
    var t := Undone(before, after, done);
    forall q
      ensures q in done ==> At(t, q) == Goal(before, q)
      ensures At(t, q) == At(after, q) || Moved(before, done, t, q)
    {
      if q != [] { UndoneHas(before, after, done, q); }
    }
  }

  // ---------------------------------------------------------------- what the rollback guarantees

  /**
   What still differs from the snapshot was allowed to change and is as the command left it, or was
   an opaque entry, which is removed and not recreated.
   */
  lemma RollbackExact(verdict: Path -> Verdict, before: Tree, after: Tree, final: Tree, p: Path)
    requires WellFormed(before) && WellFormed(after)
    requires RolledBack(before, after, Unauthorized(verdict, before, after), final)
    ensures p in Unauthorized(verdict, before, after) ==>
              (At(final, p) == At(before, p) <==> !(p in before && before[p].Other?))
    ensures p !in Changed(before, after) ==> At(final, p) == At(before, p)
    ensures p !in Unauthorized(verdict, before, after) && At(final, p) != At(before, p) ==>
              && Allowed(p, verdict, Changed(before, after), before, after)
              && At(final, p) == At(after, p)
  {
    if p !in Changed(before, after) { assert At(before, p) == At(after, p); }
  }

  /** Enforcing again finds nothing to undo, exactly when no opaque entry had to be removed. */
  lemma EnforcementIsStable(verdict: Path -> Verdict, before: Tree, after: Tree, final: Tree)
    requires WellFormed(before) && WellFormed(after)
    requires RolledBack(before, after, Unauthorized(verdict, before, after), final)
    ensures Unauthorized(verdict, before, final) == {} <==>
            forall p | p in Unauthorized(verdict, before, after) :: !(p in before && before[p].Other?)
  {
    var gone := Unauthorized(verdict, before, after);
    if p :| p in gone && p in before && before[p].Other? {
      RollbackExact(verdict, before, after, final, p);
      assert p in Changed(before, final) && p in Changed(before, after);
      assert !verdict(p).Allow?;
      assert p in Unauthorized(verdict, before, final);
    } else {
      forall p | p in Changed(before, final) ensures Allowed(p, verdict, Changed(before, final), before, final) {
        StaysAllowed(verdict, before, after, final, p);
      }
    }
  }

  /** A path created below `p` is beyond the reach of rollback when nothing around `p` was rolled back. */
  lemma UntouchedContents(before: Tree, gone: set<Path>, p: Path, c: Path)
    requires p < c && c !in before
    requires forall u | u in gone :: u != p && !(u < p) && !(p < u)
    ensures !Touched(before, gone, c)
  {
    if u :| u in gone && u <= c { PrefixesCompare(u, p, c); }
  }

  /** Above a created path that survived, every unauthorized path would already have removed it. */
  lemma NotUnauthorizedAbove(before: Tree, after: Tree, final: Tree, p: Path, u: Path)
    requires WellFormed(before) && WellFormed(after) && WellFormed(final)
    requires u in Changed(before, after) && At(final, u) == Goal(before, u)
    requires p in after && p in final
    ensures !(u < p)
  {
  }

  /** A created directory that survived still holds a change that carried it. */
  lemma CarriedKeepsAChange(verdict: Path -> Verdict, before: Tree, after: Tree, final: Tree, p: Path)
    requires WellFormed(before) && WellFormed(after)
    requires RolledBack(before, after, Unauthorized(verdict, before, after), final)
    requires Allowed(p, verdict, Changed(before, after), before, after) && !verdict(p).Allow?
    requires At(final, p) == At(after, p)
    ensures ChangedBelow(p, Changed(before, final)) != {}
  {
    var gone := Unauthorized(verdict, before, after);
    var c :| c in ChangedBelow(p, Changed(before, after));
    assert p !in before && c !in before;
    assert p in final;
    forall u | u in gone ensures u != p && !(u < p) && !(p < u) {
      NotUnauthorizedAbove(before, after, final, p, u);
      assert p < u ==> u in ChangedBelow(p, Changed(before, after));
    }
    UntouchedContents(before, gone, p, c);
    assert At(final, c) == At(after, c);
    assert c in ChangedBelow(p, Changed(before, final));
  }

  lemma {:induction false} StaysAllowed(verdict: Path -> Verdict, before: Tree, after: Tree, final: Tree, p: Path)
    requires WellFormed(before) && WellFormed(after)
    requires RolledBack(before, after, Unauthorized(verdict, before, after), final)
    requires forall q | q in Unauthorized(verdict, before, after) :: !(q in before && before[q].Other?)
    requires p in Changed(before, final)
    ensures Allowed(p, verdict, Changed(before, final), before, final)
    decreases ChangedBelow(p, Changed(before, final))
  {
    var changed := Changed(before, final);
    RollbackExact(verdict, before, after, final, p);
    if !verdict(p).Allow? {
      CarriedKeepsAChange(verdict, before, after, final, p);
      forall q | q in ChangedBelow(p, changed) ensures Allowed(q, verdict, changed, before, final) {
        ChangedBelowShrinks(p, q, changed);
        StaysAllowed(verdict, before, after, final, q);
      }
    }
  }

  lemma ChangedBelowShrinks(p: Path, q: Path, changed: set<Path>)
    requires q in ChangedBelow(p, changed)
    ensures ChangedBelow(q, changed) < ChangedBelow(p, changed)
  {
    assert q !in ChangedBelow(q, changed);
    forall r | r in ChangedBelow(q, changed) ensures r in ChangedBelow(p, changed) { BelowTransitive(p, q, r); }
  }

  // ---------------------------------------------------------------- when the rollback stops

  /** By the time a path is restored, its ancestors are as the command left them or real directories again. */
  lemma AncestorsByThen(lt: (Path, Path) -> bool, before: Tree, after: Tree, paths: set<Path>, p: Path, q: Path)
    requires WellFormed(before) && WellFormed(after) && q != [] && q < p
    ensures var now := At(Undone(before, after, Earlier(lt, paths, p)), q);
            now == At(after, q) || now == Some(Directory)
    ensures (forall u | u in Earlier(lt, paths, p) :: !(q < u)) ==> At(Undone(before, after, Earlier(lt, paths, p)), q) == At(after, q)
  {
    UndoneHas(before, after, Earlier(lt, paths, p), q);
  }

  /** Where every ancestor of every unauthorized path is a directory or missing, the rollback never stops. */
  lemma PlainTreesNeverStop(lt: (Path, Path) -> bool, links: Links, before: Tree, after: Tree, paths: set<Path>, p: Path)
    requires WellFormed(before) && WellFormed(after) && p in paths
    requires forall j | 0 < j < |p| && p[..j] in after :: after[p[..j]].Directory?
    ensures !StopsAt(lt, links, before, after, paths, p)
  {
    var t := Undone(before, after, Earlier(lt, paths, p));
    forall j | 0 < j < |p| && p[..j] in t ensures t[p[..j]].Directory? {
      AncestorsByThen(lt, before, after, paths, p, p[..j]);
    }
    PlainWalk(t, links, p);
  }

  /** An ancestor that the command turned into a file or an opaque entry always stops it. */
  lemma FileAncestorStops(lt: (Path, Path) -> bool, links: Links, before: Tree, after: Tree, paths: set<Path>, p: Path, k: nat)
    requires StrictTotal(lt) && WellFormed(before) && WellFormed(after) && p in paths
    requires 0 < k < |p| && p[..k] in after && (after[p[..k]].File? || after[p[..k]].Other?)
    ensures exists u :: StopsAt(lt, links, before, after, paths, u)
  {
    var q := p[..k];
    var below := set u | u in paths && q < u;
    assert p in below;
    var u := FirstExists(lt, below);
    var t := Undone(before, after, Earlier(lt, paths, u));
    assert forall w | w in Earlier(lt, paths, u) && q < w :: w in below;
    AncestorsByThen(lt, before, after, paths, u, q);
    assert u[..k] == q && t[q] == after[q];
    RealAbove(lt, before, after, paths, u, k);
    FirstNonDirectory(t, links, u, k);
    assert u[..|u|] == u;
    assert StopsAt(lt, links, before, after, paths, u);
  }

  /** Above an ancestor that the command left in place, everything is a real directory when the path is restored. */
  lemma RealAbove(lt: (Path, Path) -> bool, before: Tree, after: Tree, paths: set<Path>, p: Path, k: nat)
    requires WellFormed(before) && WellFormed(after) && 0 < k < |p| && p[..k] in after
    ensures forall j | 0 < j < k :: IsDirectory(Undone(before, after, Earlier(lt, paths, p)), p[..j])
  {
    forall j | 0 < j < k ensures IsDirectory(Undone(before, after, Earlier(lt, paths, p)), p[..j]) {
      assert p[..j] == p[..k][..j] && p[..j] < p[..k];
      AncestorsByThen(lt, before, after, paths, p, p[..j]);
    }
  }

  /**
   A link on the way may be a real directory again, because something below it was restored. One that
   still stands is decided by what it leads to in the tree that the rollback has made by then: along its
   target from its own directory, or from the root, and then along the rest of the path.
   */
  lemma LinkAncestorDecides(
    lt: (Path, Path) -> bool, links: Links, before: Tree, after: Tree, paths: set<Path>, p: Path, k: nat, i: nat, m: nat, names: Path)
    requires WellFormed(before) && WellFormed(after)
    requires 0 < k < i <= |p| && p[..k] in after && after[p[..k]].Symlink?
    ensures var t := Undone(before, after, Earlier(lt, paths, p));
            At(t, p[..k]) in {Some(Directory), At(after, p[..k])}
    ensures var t, target := Undone(before, after, Earlier(lt, paths, p)), after[p[..k]].target;
            At(t, p[..k]) != Some(Directory) ==>
              && (links.limit == 0 ==> Lstat(t, links, p[..i]) == Fault)
              && (links.limit > 0 && m < k && links.parse(target) == Relative(Ups(m) + Names(names)) ==>
                    Lstat(t, links, p[..i]) == LstatIn(t, links, p[..k - 1 - m] + names + p[k..i], links.limit - 1))
              && (links.limit > 0 && links.parse(target) == FromRoot(Names(names)) ==>
                    Lstat(t, links, p[..i]) == LstatIn(t, links, names + p[k..i], links.limit - 1))
  {
    var t, r := Undone(before, after, Earlier(lt, paths, p)), p[..i];
    AncestorsByThen(lt, before, after, paths, p, p[..k]);
    RealAbove(lt, before, after, paths, p, k);
    if At(t, p[..k]) != Some(Directory) {
      assert forall j | 0 <= j <= k :: r[..j] == p[..j];
      assert r[k..] == p[k..i];
      OtherLinksLead(t, links, r, k);
      if links.limit > 0 && m < k && links.parse(after[p[..k]].target) == Relative(Ups(m) + Names(names)) {
        RelativeLinkLeads(t, links, r, k, m, names);
      }
      if links.limit > 0 && links.parse(after[p[..k]].target) == FromRoot(Names(names)) { RootLinkLeads(t, links, r, k, names); }
    }
  }

  /** A scope without patterns. */
  function Unscoped(p: Path): Verdict { Silent }

  /** A directory turned into a file hides what was below it: the lstat of the deleted path fails. */
  lemma FileOverDirectoryAborts(lt: (Path, Path) -> bool, links: Links)
    requires StrictTotal(lt)
    ensures var before: Tree := map[["d"] := Directory, ["d", "x"] := File([])];
            var after: Tree := map[["d"] := File([])];
            && WellFormed(before) && WellFormed(after)
            && exists p :: StopsAt(lt, links, before, after, Unauthorized(Unscoped, before, after), p)
  {
    var before: Tree := map[["d"] := Directory, ["d", "x"] := File([])];
    var after: Tree := map[["d"] := File([])];
    forall p, q | p in before && q < p && q != [] ensures q in before && before[q].Directory? {
      assert p == ["d", "x"] && |q| == 1;
      assert q == p[..1] == ["d"];
    }
    var all := Unauthorized(Unscoped, before, after);
    assert ["d", "x"] in Changed(before, after) && ["d", "x"] in all && ["d", "x"][..1] == ["d"];
    FileAncestorStops(lt, links, before, after, all, ["d", "x"], 1);
  }

  /** The workspace `a/`, `a/f`, `d/`, `d/x`, and the same after `d` became a link to `a/f`. */
  function Linked(f: Entry): Tree {
    map[["a"] := Directory, ["a", "f"] := f, ["d"] := Symlink("a/f")]
  }

  function Plain(f: Entry): Tree {
    map[["a"] := Directory, ["a", "f"] := f, ["d"] := Directory, ["d", "x"] := File([])]
  }

  lemma TwoDeep(p: Path, q: Path, t: Tree)
    requires p in t && q < p && q != [] && (forall r | r in t :: |r| <= 2) && |p| == 2
    ensures q == [p[0]]
  {
    assert |q| == 1;
    assert q == p[..1];
  }

  lemma SmallTreesHaveShape(f: Entry)
    ensures WellFormed(Plain(f)) && WellFormed(Linked(f))
  {
    var before, after := Plain(f), Linked(f);
    forall p, q | p in before && q < p && q != [] ensures q in before && before[q].Directory? { TwoDeep(p, q, before); }
    forall p, q | p in after && q < p && q != [] ensures q in after && after[q].Directory? { TwoDeep(p, q, after); }
  }

  lemma SmallTreesChanged(f: Entry, g: Entry)
    requires f != g
    ensures Unauthorized(Unscoped, Plain(f), Linked(g)) == {["a", "f"], ["d"], ["d", "x"]}
  {
    var before, after := Plain(f), Linked(g);
    assert before.Keys + after.Keys == {["a"], ["a", "f"], ["d"], ["d", "x"]};
    assert Changed(before, after) == {["a", "f"], ["d"], ["d", "x"]};
  }

  /** What lstat says of `d/x` when `d` is a link to `a/f`: it depends on what `a/f` is. */
  lemma ThroughTheLink(t: Tree, links: Links)
    requires links.parse("a/f") == Relative([Name("a"), Name("f")]) && links.limit > 0
    requires IsDirectory(t, ["a"]) && ["a", "f"] in t && ["a", "f", "x"] !in t && At(t, ["d"]) == Some(Symlink("a/f"))
    ensures t[["a", "f"]].Directory? ==> Lstat(t, links, ["d", "x"]) == Missing
    ensures t[["a", "f"]].File? ==> Lstat(t, links, ["d", "x"]) == Fault
    ensures Blocked(t, links, ["d", "x"]) <==> Lstat(t, links, ["d", "x"]).Fault?
  {
    var p: Path := ["d", "x"];
    assert p[..1] == ["d"] && p[..2] == p && p[..0] == [];
    FirstNonDirectory(t, links, p, 1);
    assert Names(p)[1..] == [Name("x")];
    var steps := [Name("a"), Name("f"), Name("x")];
    assert [Name("a"), Name("f")] + [Name("x")] == steps;
    var b := links.limit - 1;
    assert steps[1..] == [Name("f"), Name("x")] && steps[1..][1..] == [Name("x")];
    assert [] + ["a"] == ["a"] && ["a"] + ["f"] == ["a", "f"] && ["a", "f"] + ["x"] == ["a", "f", "x"];
    assert Lookup(t, links, [], steps, b) == Lookup(t, links, ["a"], steps[1..], b);
    if t[["a", "f"]].Directory? {
      assert Lookup(t, links, ["a"], steps[1..], b) == Lookup(t, links, ["a", "f"], [Name("x")], b);
    }
    GroundedLstat(t, links, ["d"]);
    if Blocked(t, links, p) {
      var i :| 0 < i <= |p| && Lstat(t, links, p[..i]).Fault?;
      assert i == 2;
    }
  }

  ghost predicate Setting(lt: (Path, Path) -> bool, links: Links) {
    && StrictTotal(lt) && lt(["a", "f"], ["d", "x"])
    && links.parse("a/f") == Relative([Name("a"), Name("f")]) && links.limit > 0
  }

  /** At `a/f` and `d`, below real directories, nothing can stop the rollback. */
  lemma OnlyTheLinkCounts(lt: (Path, Path) -> bool, links: Links, before: Tree, after: Tree, all: set<Path>)
    requires WellFormed(before) && WellFormed(after) && IsDirectory(after, ["a"])
    ensures !StopsAt(lt, links, before, after, all, ["a", "f"]) && !StopsAt(lt, links, before, after, all, ["d"])
    ensures !Blocked(after, links, ["a", "f"]) && !Blocked(after, links, ["d"])
  {
    assert ["a", "f"][..1] == ["a"];
    PlainWalk(after, links, ["a", "f"]);
    PlainWalk(after, links, ["d"]);
    if ["a", "f"] in all { PlainTreesNeverStop(lt, links, before, after, all, ["a", "f"]); }
    if ["d"] in all { PlainTreesNeverStop(lt, links, before, after, all, ["d"]); }
  }

  /** What the command itself left obstructed. */
  lemma BlockedByTheLink(lt: (Path, Path) -> bool, links: Links, g: Entry)
    requires Setting(lt, links) && (g.File? || g.Directory?)
    ensures !Blocked(Linked(g), links, ["a", "f"]) && !Blocked(Linked(g), links, ["d"])
    ensures Blocked(Linked(g), links, ["d", "x"]) <==> g.File?
  {
    SmallTreesHaveShape(g);
    OnlyTheLinkCounts(lt, links, Linked(g), Linked(g), {});
    ThroughTheLink(Linked(g), links);
  }

  /** Whether it stops at `d/x` is a matter of what `a/f` is in the snapshot. */
  lemma SnapshotDecides(lt: (Path, Path) -> bool, links: Links, f: Entry, g: Entry)
    requires Setting(lt, links) && f != g && (f.File? || f.Directory?)
    ensures StopsAt(lt, links, Plain(f), Linked(g), {["a", "f"], ["d"], ["d", "x"]}, ["d", "x"]) <==> f.File?
  {
    var all: set<Path> := {["a", "f"], ["d"], ["d", "x"]};
    SmallTreesHaveShape(f);
    SmallTreesHaveShape(g);
    AfterFirst(lt, Plain(f), Linked(g), all);
    ThroughTheLink(Undone(Plain(f), Linked(g), {["a", "f"]}), links);
  }

  /**
   Nothing is obstructed when the command ends, and yet the rollback stops: `a/f`, a directory by
   then, is made a file again first, and the link `d` leads there when `d/x` is examined.
   */
  lemma RestoredTargetStops(lt: (Path, Path) -> bool, links: Links)
    requires Setting(lt, links)
    ensures var all := Unauthorized(Unscoped, Plain(File([])), Linked(Directory));
            && (forall p | p in all :: !Blocked(Linked(Directory), links, p))
            && StopsAt(lt, links, Plain(File([])), Linked(Directory), all, ["d", "x"])
  {
    SmallTreesChanged(File([]), Directory);
    SnapshotDecides(lt, links, File([]), Directory);
    BlockedByTheLink(lt, links, Directory);
  }

  /** The other way round: an obstruction that the command left is gone by the time the path is reached. */
  lemma RestoredTargetHeals(lt: (Path, Path) -> bool, links: Links, p: Path)
    requires Setting(lt, links)
    ensures var all := Unauthorized(Unscoped, Plain(Directory), Linked(File([])));
            && Blocked(Linked(File([])), links, ["d", "x"]) && ["d", "x"] in all
            && !StopsAt(lt, links, Plain(Directory), Linked(File([])), all, p)
  {
    var all: set<Path> := {["a", "f"], ["d"], ["d", "x"]};
    SmallTreesChanged(Directory, File([]));
    SmallTreesHaveShape(File([]));
    SmallTreesHaveShape(Directory);
    SnapshotDecides(lt, links, Directory, File([]));
    OnlyTheLinkCounts(lt, links, Plain(Directory), Linked(File([])), all);
    BlockedByTheLink(lt, links, File([]));
  }

  /** When `d/x` is reached, only `a/f` has been restored. */
  lemma AfterFirst(lt: (Path, Path) -> bool, before: Tree, after: Tree, all: set<Path>)
    requires StrictTotal(lt) && lt(["a", "f"], ["d", "x"]) && all == {["a", "f"], ["d"], ["d", "x"]}
    requires WellFormed(before) && WellFormed(after) && IsDirectory(before, ["a"]) && ["a", "f"] in before && !before[["a", "f"]].Other?
    requires IsDirectory(after, ["a"]) && ["a", "f", "x"] !in after && ["a", "f", "x"] !in before && At(after, ["d"]) == Some(Symlink("a/f"))
    ensures Earlier(lt, all, ["d", "x"]) == {["a", "f"]}
    ensures var t := Undone(before, after, {["a", "f"]});
            && IsDirectory(t, ["a"]) && At(t, ["a", "f"]) == At(before, ["a", "f"]) && ["a", "f", "x"] !in t
            && At(t, ["d"]) == Some(Symlink("a/f"))
  {
    var done: set<Path> := {["a", "f"]};
    UndoneHas(before, after, done, ["a"]);
    UndoneHas(before, after, done, ["a", "f"]);
    UndoneHas(before, after, done, ["d"]);
    assert ["a", "f"][0] == "a" && ["d"][0] == "d";
    assert !(["d"] < ["a", "f"]);
    assert ["a"] == ["a", "f"][..1];
  }

  /** A deleted socket or fifo is never put back. */
  lemma OpaqueEntryIsLost()
    ensures var before: Tree := map[["s"] := Other];
            && WellFormed(before)
            && ["s"] in Unauthorized(Unscoped, before, map[])
            && At(Restored(map[], before, ["s"]), ["s"]) != At(before, ["s"])
  {
    var before: Tree := map[["s"] := Other];
    ClearedAt(map[], ["s"], ["s"]);
  }
}

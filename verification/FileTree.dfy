/**
 A tree of files, directories and links, what lstat says of a path in it, and the two operations
 that rollback is made of: removing what is at a path, and making its ancestors real directories.
 */
module FileTree {
  import opened Wrappers

  /** Path segments below the workspace root; the root itself is never an entry. */
  type Path = seq<string>

  datatype Entry = File(content: seq<bv8>) | Directory | Symlink(target: string) | Other

  type Tree = map<Path, Entry>

  /** Every entry hangs below real directories. */
  ghost predicate WellFormed(t: Tree) {
    && [] !in t
    && forall p, q :: p in t && q < p && q != [] ==> q in t && t[q].Directory?
  }

  function At(t: Tree, p: Path): Option<Entry> {
    if p in t then Some(t[p]) else None
  }

  function IsDirectory(t: Tree, p: Path): bool {
    p in t && t[p].Directory?
  }

  // ---------------------------------------------------------------- file system

  /** One component of a path that the file system walks. */
  datatype Step = Here | Up | Name(name: string)

  /** Where a link points: from its own directory, from the workspace root, or somewhere else. */
  datatype Target = Relative(steps: seq<Step>) | FromRoot(steps: seq<Step>) | Elsewhere

  /** How a walk leaves the workspace, with the steps it has still to take. */
  datatype Exit = Above(steps: seq<Step>) | Away(target: string, steps: seq<Step>)

  /** How link texts are read, how many links a walk may follow, and which walks fail outside the workspace. */
  datatype Links = Links(parse: string -> Target, limit: nat, fails: Exit -> bool)

  /** An lstat answer; a fault is any failure other than "no such entry". */
  datatype Stat = Missing | Present(entry: Entry) | Outside | Fault

  function Left(links: Links, exit: Exit): Stat {
    if links.fails(exit) then Fault else Outside
  }

  /** The walk of the file system: every component but the last is followed, through links and all. */
  function Lookup(t: Tree, links: Links, dir: Path, steps: seq<Step>, budget: nat): Stat
    decreases budget, |steps|
  {
    if steps == [] then Present(Directory)
    else match steps[0]
      case Here => Lookup(t, links, dir, steps[1..], budget)
      case Up => if dir == [] then Left(links, Above(steps[1..])) else Lookup(t, links, dir[..|dir| - 1], steps[1..], budget)
      case Name(n) =>
        if dir + [n] !in t then Missing
        else if |steps| == 1 then Present(t[dir + [n]])
        else match t[dir + [n]]
          case Directory => Lookup(t, links, dir + [n], steps[1..], budget)
          case Symlink(target) => if budget == 0 then Fault else Follow(t, links, dir, target, steps[1..], budget - 1)
          case _ => Fault
  }

  function Length(target: Target): nat {
    if target.Elsewhere? then 0 else |target.steps|
  }

  function Follow(t: Tree, links: Links, dir: Path, target: string, rest: seq<Step>, budget: nat): Stat
    decreases budget, |rest| + Length(links.parse(target)) + 1
  {
    match links.parse(target)
    case Relative(steps) => Lookup(t, links, dir, steps + rest, budget)
    case FromRoot(steps) => Lookup(t, links, [], steps + rest, budget)
    case Elsewhere => Left(links, Away(target, rest))
  }

  function Names(p: Path): (s: seq<Step>)
    ensures |s| == |p| && forall i | 0 <= i < |p| :: s[i] == Name(p[i])
  {
    seq(|p|, i requires 0 <= i < |p| => Name(p[i]))
  }

  /** An lstat of a path that may still follow so many links. */
  function LstatIn(t: Tree, links: Links, p: Path, budget: nat): Stat {
    Lookup(t, links, [], Names(p), budget)
  }

  function Lstat(t: Tree, links: Links, p: Path): Stat {
    LstatIn(t, links, p, links.limit)
  }

  /** The walk over the prefixes of the path meets a fault. */
  predicate Blocked(t: Tree, links: Links, p: Path) {
    exists i | 0 < i <= |p| :: Lstat(t, links, p[..i]).Fault?
  }

  function RemoveTree(t: Tree, p: Path): Tree {
    map q | q in t && !(p <= q) :: t[q]
  }

  function Ancestors(p: Path): set<Path> {
    set k | 0 < k < |p| :: p[..k]
  }

  function WithAncestors(t: Tree, p: Path): Tree {
    t + map q | q in Ancestors(p) :: Directory
  }

  /** All proper ancestors are real directories, so no operation on the path can follow a link. */
  ghost predicate Grounded(t: Tree, p: Path) {
    p != [] && forall q :: q in Ancestors(p) ==> IsDirectory(t, q)
  }

  // ---------------------------------------------------------------- what lstat says

  /** The walk goes straight down as long as it meets directories. */
  lemma {:induction false} Descend(t: Tree, links: Links, p: Path, k: nat, budget: nat)
    requires k < |p| && forall j | 0 < j <= k :: IsDirectory(t, p[..j])
    ensures LstatIn(t, links, p, budget) == Lookup(t, links, p[..k], Names(p)[k..], budget)
  {
    if k > 0 {
      Descend(t, links, p, k - 1, budget);
      var steps := Names(p)[k - 1..];
      assert steps[0] == Name(p[k - 1]) && steps[1..] == Names(p)[k..];
      assert p[..k - 1] + [p[k - 1]] == p[..k] && IsDirectory(t, p[..k]);
    } else {
      assert Names(p)[0..] == Names(p) && p[..0] == [];
    }
  }

  /** Where a path stands on real directories, lstat answers for the path itself. */
  lemma GroundedLstat(t: Tree, links: Links, p: Path)
    requires Grounded(t, p)
    ensures Lstat(t, links, p) == if p in t then Present(t[p]) else Missing
  {
    assert forall j | 0 < j <= |p| - 1 :: p[..j] in Ancestors(p);
    Descend(t, links, p, |p| - 1, links.limit);
    assert Names(p)[|p| - 1..] == [Name(p[|p| - 1])];
    assert p[..|p| - 1] + [p[|p| - 1]] == p;
  }

  /** What the first prefix that is not a directory does to the walk. */
  lemma FirstNonDirectory(t: Tree, links: Links, p: Path, k: nat)
    requires 0 < k < |p| && !IsDirectory(t, p[..k]) && forall j | 0 < j < k :: IsDirectory(t, p[..j])
    ensures p[..k] !in t ==> Lstat(t, links, p) == Missing
    ensures p[..k] in t && !t[p[..k]].Symlink? ==> Lstat(t, links, p) == Fault
    ensures p[..k] in t && t[p[..k]].Symlink? ==>
              Lstat(t, links, p) == if links.limit == 0 then Fault
                                    else Follow(t, links, p[..k - 1], t[p[..k]].target, Names(p)[k..], links.limit - 1)
  {
    Descend(t, links, p, k - 1, links.limit);
    var steps := Names(p)[k - 1..];
    assert steps[0] == Name(p[k - 1]) && steps[1..] == Names(p)[k..] && |steps| > 1;
    assert p[..k - 1] + [p[k - 1]] == p[..k];
  }

  /** Ancestors that are directories or missing never make lstat fail. */
  lemma PlainWalk(t: Tree, links: Links, p: Path)
    requires forall j | 0 < j < |p| && p[..j] in t :: t[p[..j]].Directory?
    ensures !Blocked(t, links, p)
  {
    forall i | 0 < i <= |p| ensures !Lstat(t, links, p[..i]).Fault? {
      var r := p[..i];
      assert forall j | 0 < j < i :: r[..j] == p[..j];
      if k :| 0 < k < i && r[..k] !in t && forall j | 0 < j < k :: r[..j] in t {
        FirstNonDirectory(t, links, r, k);
      } else {
        AllPrefixesThere(t, r, i - 1);
        GroundedLstat(t, links, r);
      }
    }
  }

  lemma {:induction false} AllPrefixesThere(t: Tree, r: Path, n: nat)
    requires n < |r| && !exists k | 0 < k < |r| :: r[..k] !in t && forall j | 0 < j < k :: r[..j] in t
    ensures forall j | 0 < j <= n :: r[..j] in t
  {
    if n > 0 { AllPrefixesThere(t, r, n - 1); }
  }

  // ---------------------------------------------------------------- where links lead

  function Ups(m: nat): (s: seq<Step>)
    ensures |s| == m && forall i | 0 <= i < m :: s[i] == Up
  {
    seq(m, _ => Up)
  }

  lemma FromDirectory(t: Tree, links: Links, dir: Path, names: Path, rest: Path, budget: nat)
    requires rest != [] && forall j | 0 < j <= |dir| :: IsDirectory(t, dir[..j])
    ensures Lookup(t, links, dir, Names(names) + Names(rest), budget) == LstatIn(t, links, dir + names + rest, budget)
  {
    var q := dir + names + rest;
    assert q[..|dir|] == dir && forall j | 0 < j <= |dir| :: q[..j] == dir[..j];
    Descend(t, links, q, |dir|, budget);
    assert Names(names) + Names(rest) == Names(q)[|dir|..];
  }

  /** From a real directory, some steps up and then down again is the path from the root. */
  lemma {:induction false} ClimbThenDescend(t: Tree, links: Links, dir: Path, m: nat, names: Path, rest: Path, budget: nat)
    requires m <= |dir| && rest != [] && forall j | 0 < j <= |dir| :: IsDirectory(t, dir[..j])
    ensures Lookup(t, links, dir, Ups(m) + Names(names) + Names(rest), budget) == LstatIn(t, links, dir[..|dir| - m] + names + rest, budget)
    decreases m
  {
    if m == 0 {
      FromDirectory(t, links, dir, names, rest, budget);
      assert dir[..|dir|] == dir && Ups(0) + Names(names) + Names(rest) == Names(names) + Names(rest);
    } else {
      var steps, parent := Ups(m) + Names(names) + Names(rest), dir[..|dir| - 1];
      assert steps[0] == Up && steps[1..] == Ups(m - 1) + Names(names) + Names(rest);
      assert forall j | 0 < j <= |parent| :: parent[..j] == dir[..j];
      ClimbThenDescend(t, links, parent, m - 1, names, rest, budget);
      assert parent[..|parent| - (m - 1)] == dir[..|dir| - m];
    }
  }

  lemma {:induction false} ClimbOut(t: Tree, links: Links, dir: Path, m: nat, rest: seq<Step>, budget: nat)
    requires m > |dir|
    ensures Lookup(t, links, dir, Ups(m) + rest, budget) ==
            if links.fails(Above(Ups(m - |dir| - 1) + rest)) then Fault else Outside
    decreases |dir|
  {
    var steps := Ups(m) + rest;
    assert steps[0] == Up && steps[1..] == Ups(m - 1) + rest;
    if dir != [] { ClimbOut(t, links, dir[..|dir| - 1], m - 1, rest, budget); }
  }

  /**
   * Below real directories, and with a link left to follow, a path through a relative link is looked
   * up from the directory of the link, so many steps up, along the target and then along the rest.
   */
  lemma RelativeLinkLeads(t: Tree, links: Links, p: Path, k: nat, m: nat, names: Path)
    requires 0 < k < |p| && links.limit > 0 && p[..k] in t && t[p[..k]].Symlink? && forall j | 0 < j < k :: IsDirectory(t, p[..j])
    requires links.parse(t[p[..k]].target) == Relative(Ups(m) + Names(names))
    ensures m < k ==> Lstat(t, links, p) == LstatIn(t, links, p[..k - 1 - m] + names + p[k..], links.limit - 1)
    ensures m >= k ==> Lstat(t, links, p) == if links.fails(Above(Ups(m - k) + (Names(names) + Names(p[k..])))) then Fault else Outside
  {
    var dir, rest := p[..k - 1], p[k..];
    FirstNonDirectory(t, links, p, k);
    assert Names(p)[k..] == Names(rest);
    assert forall j | 0 < j <= k - 1 :: dir[..j] == p[..j];
    assert (Ups(m) + Names(names)) + Names(rest) == Ups(m) + (Names(names) + Names(rest));
    if m < k {
      ClimbThenDescend(t, links, dir, m, names, rest, links.limit - 1);
      assert dir[..|dir| - m] == p[..k - 1 - m];
    } else {
      ClimbOut(t, links, dir, m, Names(names) + Names(rest), links.limit - 1);
    }
  }

  /** Through a link that starts at the workspace root, from the root along the target and the rest. */
  lemma RootLinkLeads(t: Tree, links: Links, p: Path, k: nat, names: Path)
    requires 0 < k < |p| && links.limit > 0 && p[..k] in t && t[p[..k]].Symlink? && forall j | 0 < j < k :: IsDirectory(t, p[..j])
    requires links.parse(t[p[..k]].target) == FromRoot(Names(names))
    ensures Lstat(t, links, p) == LstatIn(t, links, names + p[k..], links.limit - 1)
  {
    FirstNonDirectory(t, links, p, k);
    assert Names(names) + Names(p)[k..] == Names(names + p[k..]);
  }

  /** Through a link that leads elsewhere, whatever the walk meets there; with no link left to follow, a fault. */
  lemma OtherLinksLead(t: Tree, links: Links, p: Path, k: nat)
    requires 0 < k < |p| && p[..k] in t && t[p[..k]].Symlink? && forall j | 0 < j < k :: IsDirectory(t, p[..j])
    ensures links.limit == 0 ==> Lstat(t, links, p) == Fault
    ensures links.limit > 0 && links.parse(t[p[..k]].target).Elsewhere? ==>
              Lstat(t, links, p) == if links.fails(Away(t[p[..k]].target, Names(p[k..]))) then Fault else Outside
  {
    FirstNonDirectory(t, links, p, k);
    assert Names(p)[k..] == Names(p[k..]);
  }

  // ---------------------------------------------------------------- tree surgery

  lemma AncestorsArePrefixes(p: Path)
    ensures forall q :: q in Ancestors(p) <==> q != [] && q < p
  {
    forall q | q != [] && q < p ensures q in Ancestors(p) { assert q == p[..|q|]; }
  }

  lemma PrefixTransitive(p: Path, q: Path, r: Path)
    requires p <= q <= r
    ensures p <= r
  {
    assert r[..|p|] == q[..|p|] == p;
  }

  lemma PrefixesCompare(p: Path, q: Path, r: Path)
    requires p <= r && q <= r
    ensures p <= q || q <= p
  {
    if |p| <= |q| { assert p == r[..|p|] == q[..|p|]; } else { assert q == r[..|q|] == p[..|q|]; }
  }

  lemma RemoveTreeKeepsShape(t: Tree, p: Path)
    requires WellFormed(t)
    ensures WellFormed(RemoveTree(t, p))
  {
    var u := RemoveTree(t, p);
    forall r, q | r in u && q < r && q != [] ensures q in u && u[q].Directory? {
      if p <= q { PrefixTransitive(p, q, r); }
    }
  }

  /** Below something that is not a directory there is nothing. */
  lemma NothingBelow(t: Tree, q: Path, p: Path)
    requires WellFormed(t) && q != [] && q <= p && p in t && !IsDirectory(t, q)
    ensures p == q
  {
  }

  lemma RemoveMissing(t: Tree, p: Path)
    requires WellFormed(t) && p != []
    requires p !in t
    ensures RemoveTree(t, p) == t
  {
    forall q | q in t ensures !(p <= q) {
      if p <= q { NothingBelow(t, p, q); }
    }
  }

  lemma AddGrounded(t: Tree, p: Path, e: Entry)
    requires WellFormed(t) && Grounded(t, p) && p !in t
    ensures WellFormed(t[p := e])
  {
    AncestorsArePrefixes(p);
    var u := t[p := e];
    forall r, q | r in u && q < r && q != [] ensures q in u && u[q].Directory? {
      if r == p {
        assert q in Ancestors(p);
      } else if q == p {
        NothingBelow(t, p, r);
      }
    }
  }

  lemma WithAncestorsKeepsShape(t: Tree, p: Path)
    requires WellFormed(t)
    ensures WellFormed(WithAncestors(t, p))
    ensures p != [] ==> Grounded(WithAncestors(t, p), p)
    ensures forall q :: q !in Ancestors(p) ==> At(WithAncestors(t, p), q) == At(t, q)
  {
    AncestorsArePrefixes(p);
    var u := WithAncestors(t, p);
    forall r, q | r in u && q < r && q != [] ensures q in u && u[q].Directory? {
      if r in Ancestors(p) { PrefixTransitive(q, r, p); }
    }
  }

  /** The cleared path with its ancestors rebuilt, entry by entry. */
  lemma ClearedAt(t: Tree, p: Path, q: Path)
    requires WellFormed(t) && p != []
    ensures At(WithAncestors(RemoveTree(t, p), p), q) ==
            if p <= q then None else if q != [] && q < p then Some(Directory) else At(t, q)
  {
    AncestorsArePrefixes(p);
  }

  lemma AncestorsStep(p: Path, i: nat)
    requires 0 < i < |p|
    ensures Ancestors(p[..i + 1]) == Ancestors(p[..i]) + {p[..i]}
  {
    var r := p[..i + 1];
    assert forall k | 0 < k <= i :: r[..k] == p[..k];
    assert forall k | 0 < k < i :: p[..i][..k] == p[..k];
    assert r[..i] in Ancestors(r);
    forall q | q in Ancestors(p[..i]) ensures q in Ancestors(r) {
      var k :| 0 < k < i && q == p[..i][..k];
      assert q == r[..k];
    }
  }

  /** One more prefix made a real directory: the next ancestor. */
  lemma WithAncestorsStep(t: Tree, p: Path, i: nat)
    requires WellFormed(t) && 0 < i < |p|
    ensures Grounded(WithAncestors(t, p[..i]), p[..i])
    ensures WellFormed(WithAncestors(t, p[..i + 1]))
    ensures WithAncestors(t, p[..i + 1]) == WithAncestors(t, p[..i])[p[..i] := Directory]
  {
    var q, r := p[..i], p[..i + 1];
    WithAncestorsKeepsShape(t, q);
    WithAncestorsKeepsShape(t, r);
    assert Ancestors(r) == Ancestors(q) + {q} by { AncestorsStep(p, i); }
    assert WithAncestors(t, r).Keys == WithAncestors(t, q)[q := Directory].Keys;
  }

  /** Clearing what is not a directory and making one there replaces a single entry. */
  lemma ReplaceNonDirectory(u: Tree, q: Path)
    requires WellFormed(u) && q != []
    ensures u[q := Directory] == if IsDirectory(u, q) then u else RemoveTree(u, q)[q := Directory]
  {
    if !IsDirectory(u, q) {
      forall r | r in u && r != q ensures !(q <= r) {
        if q <= r { NothingBelow(u, q, r); }
      }
      var w := RemoveTree(u, q)[q := Directory];
      assert w.Keys == u.Keys + {q};
    }
  }

  /** Rebuilding the ancestors first and clearing the path second comes to the same tree. */
  lemma ClearAfterAncestors(t: Tree, p: Path)
    ensures RemoveTree(WithAncestors(t, p), p) == WithAncestors(RemoveTree(t, p), p)
    ensures IsDirectory(WithAncestors(t, p), p) <==> IsDirectory(t, p)
  {
    AncestorsArePrefixes(p);
    assert RemoveTree(WithAncestors(t, p), p).Keys == WithAncestors(RemoveTree(t, p), p).Keys;
  }

  lemma AncestorsAlreadyThere(t: Tree, p: Path)
    requires WellFormed(t) && p in t
    ensures WithAncestors(t, p) == t
  {
    AncestorsArePrefixes(p);
    assert forall q | q in Ancestors(p) :: q in t && t[q].Directory?;
  }
}

/**
 The owner filter: does an object have an owner of a given kind, directly or through the
 owners of its owners?
 */
module OwnerSearch {
  import opened Wrappers

  datatype Ref = Ref(apiVersion: string, kind: string, name: string)

  datatype OwnerFilter = OwnerFilter(apiVersion: string, kind: string)

  // What the owner look-up answers for each reference, and a rank that owners lower: the
  // owner graph has no cycle.
  datatype Cluster = Cluster(owners: Ref -> Result<seq<Ref>, string>, rank: Ref -> nat)

  ghost predicate Acyclic(c: Cluster) {
    forall r, o | c.owners(r).Ok? && o in c.owners(r).value :: c.rank(o) < c.rank(r)
  }

  predicate IsMatch(f: OwnerFilter, r: Ref) {
    r.apiVersion == f.apiVersion && r.kind == f.kind
  }

  function RanksBelow(c: Cluster, refs: seq<Ref>): (bound: nat)
    ensures forall r | r in refs :: c.rank(r) < bound
  {
    if refs == [] then 0
    else
      var rest := RanksBelow(c, refs[1..]);
      if c.rank(refs[0]) < rest then rest else c.rank(refs[0]) + 1
  }

  // owner == None: start from the given references; else look the owner's references up.
  // The depth handed on is not i + 1 but the position in the list plus one, because the loop
  // variable shadows the parameter.
  ghost function GetOwners(
    c: Cluster, f: OwnerFilter, owner: Option<Ref>, inRefs: seq<Ref>, i: nat, maxDepth: nat): Result<bool, string>
    requires Acyclic(c)
    decreases (if owner.Some? then c.rank(owner.value) else RanksBelow(c, inRefs)), 1, 0
  {
    var found := if owner.Some? then c.owners(owner.value) else Ok(inRefs);
    match found
    case Err(e) => Err(e)
    case Ok(refs) =>
      if exists r :: r in refs && IsMatch(f, r) then Ok(true)
      else if !(i < maxDepth) then Ok(false)
      else SearchFrom(c, f, refs, 0, maxDepth, if owner.Some? then c.rank(owner.value) else RanksBelow(c, inRefs))
  }

  ghost function SearchFrom(
    c: Cluster, f: OwnerFilter, refs: seq<Ref>, j: nat, maxDepth: nat, bound: nat): Result<bool, string>
    requires Acyclic(c) && j <= |refs| && forall r | r in refs :: c.rank(r) < bound
    decreases bound, 0, |refs| - j
  {
    if j == |refs| then Ok(false)
    else
      var r := GetOwners(c, f, Some(refs[j]), [], j + 1, maxDepth);
      if r == Ok(false) then SearchFrom(c, f, refs, j + 1, maxDepth, bound) else r
  }

  /* ---- paths through the owner graph, as positions in the successive owner lists ---- */

  predicate IsPath(c: Cluster, refs: seq<Ref>, p: seq<nat>)
    decreases |p|
  {
    && p != [] && p[0] < |refs|
    && (|p| > 1 ==> c.owners(refs[p[0]]).Ok? && IsPath(c, c.owners(refs[p[0]]).value, p[1..]))
  }

  function End(c: Cluster, refs: seq<Ref>, p: seq<nat>): Ref
    requires IsPath(c, refs, p)
    decreases |p|
  {
    if |p| == 1 then refs[p[0]] else End(c, c.owners(refs[p[0]]).value, p[1..])
  }

  // The reference a path ends at has the API version and the kind asked for.
  predicate Leads(f: OwnerFilter, c: Cluster, refs: seq<Ref>, p: seq<nat>)
    requires IsPath(c, refs, p)
  {
    End(c, refs, p).apiVersion == f.apiVersion && End(c, refs, p).kind == f.kind
  }

  // The search started with depth i goes down this path to its end.
  predicate Follows(p: seq<nat>, i: nat, maxDepth: nat)
    requires p != []
  {
    |p| > 1 ==> i < maxDepth && Follows(p[1..], p[0] + 1, maxDepth)
  }

  ghost predicate FoundBy(c: Cluster, f: OwnerFilter, refs: seq<Ref>, i: nat, maxDepth: nat, p: seq<nat>) {
    IsPath(c, refs, p) && Leads(f, c, refs, p) && Follows(p, i, maxDepth)
  }

  function Refs(c: Cluster, owner: Option<Ref>, inRefs: seq<Ref>): Result<seq<Ref>, string> {
    if owner.Some? then c.owners(owner.value) else Ok(inRefs)
  }

  // A positive answer always has an owner chain to show for it, errors or not.
  lemma {:induction false} SearchIsSound(
    c: Cluster, f: OwnerFilter, owner: Option<Ref>, inRefs: seq<Ref>, i: nat, maxDepth: nat) returns (p: seq<nat>)
    requires Acyclic(c) && GetOwners(c, f, owner, inRefs, i, maxDepth) == Ok(true)
    ensures Refs(c, owner, inRefs).Ok? && FoundBy(c, f, Refs(c, owner, inRefs).value, i, maxDepth, p)
    decreases (if owner.Some? then c.rank(owner.value) else RanksBelow(c, inRefs)), 1, 0
  {
    var refs := Refs(c, owner, inRefs).value;
    if exists r :: r in refs && IsMatch(f, r) {
      var r :| r in refs && IsMatch(f, r);
      var j :| 0 <= j < |refs| && refs[j] == r;
      p := [j];
    } else {
      p := LoopIsSound(c, f, refs, 0, i, maxDepth, if owner.Some? then c.rank(owner.value) else RanksBelow(c, inRefs));
    }
  }

  lemma {:induction false} LoopIsSound(
    c: Cluster, f: OwnerFilter, refs: seq<Ref>, j: nat, i: nat, maxDepth: nat, bound: nat) returns (p: seq<nat>)
    requires Acyclic(c) && j <= |refs| && i < maxDepth && forall r | r in refs :: c.rank(r) < bound
    requires SearchFrom(c, f, refs, j, maxDepth, bound) == Ok(true)
    ensures FoundBy(c, f, refs, i, maxDepth, p)
    decreases bound, 0, |refs| - j
  {
    if GetOwners(c, f, Some(refs[j]), [], j + 1, maxDepth) == Ok(true) {
      var rest := SearchIsSound(c, f, Some(refs[j]), [], j + 1, maxDepth);
      p := [j] + rest;
      assert p[1..] == rest;
    } else {
      p := LoopIsSound(c, f, refs, j + 1, i, maxDepth, bound);
    }
  }

  // Without look-up errors every followed chain to a matching owner is found.
  lemma {:induction false} SearchIsComplete(
    c: Cluster, f: OwnerFilter, owner: Option<Ref>, inRefs: seq<Ref>, i: nat, maxDepth: nat, p: seq<nat>)
    requires Acyclic(c) && forall r :: c.owners(r).Ok?
    requires FoundBy(c, f, Refs(c, owner, inRefs).value, i, maxDepth, p)
    ensures GetOwners(c, f, owner, inRefs, i, maxDepth) == Ok(true)
    decreases (if owner.Some? then c.rank(owner.value) else RanksBelow(c, inRefs)), 1, 0
  {
    var refs := Refs(c, owner, inRefs).value;
    if |p| == 1 {
      assert refs[p[0]] in refs && IsMatch(f, refs[p[0]]);
    } else if !exists r :: r in refs && IsMatch(f, r) {
      LoopIsComplete(c, f, refs, 0, maxDepth, if owner.Some? then c.rank(owner.value) else RanksBelow(c, inRefs), p);
    }
  }

  lemma {:induction false} NoErrorsNoError(
    c: Cluster, f: OwnerFilter, owner: Option<Ref>, inRefs: seq<Ref>, i: nat, maxDepth: nat)
    requires Acyclic(c) && forall r :: c.owners(r).Ok?
    ensures GetOwners(c, f, owner, inRefs, i, maxDepth).Ok?
    decreases (if owner.Some? then c.rank(owner.value) else RanksBelow(c, inRefs)), 1, 0
  {
    var refs := Refs(c, owner, inRefs).value;
    LoopNoError(c, f, refs, 0, maxDepth, if owner.Some? then c.rank(owner.value) else RanksBelow(c, inRefs));
  }

  lemma {:induction false} LoopNoError(c: Cluster, f: OwnerFilter, refs: seq<Ref>, j: nat, maxDepth: nat, bound: nat)
    requires Acyclic(c) && (forall r :: c.owners(r).Ok?)
    requires j <= |refs| && forall r | r in refs :: c.rank(r) < bound
    ensures SearchFrom(c, f, refs, j, maxDepth, bound).Ok?
    decreases bound, 0, |refs| - j
  {
    if j < |refs| {
      NoErrorsNoError(c, f, Some(refs[j]), [], j + 1, maxDepth);
      LoopNoError(c, f, refs, j + 1, maxDepth, bound);
    }
  }

  lemma {:induction false} LoopIsComplete(
    c: Cluster, f: OwnerFilter, refs: seq<Ref>, j: nat, maxDepth: nat, bound: nat, p: seq<nat>)
    requires Acyclic(c) && (forall r :: c.owners(r).Ok?) && forall r | r in refs :: c.rank(r) < bound
    requires IsPath(c, refs, p) && |p| > 1 && j <= p[0]
    requires FoundBy(c, f, c.owners(refs[p[0]]).value, p[0] + 1, maxDepth, p[1..])
    ensures SearchFrom(c, f, refs, j, maxDepth, bound) == Ok(true)
    decreases bound, 0, |refs| - j
  {
    NoErrorsNoError(c, f, Some(refs[j]), [], j + 1, maxDepth);
    if j == p[0] {
      SearchIsComplete(c, f, Some(refs[j]), [], j + 1, maxDepth, p[1..]);
    } else {
      LoopIsComplete(c, f, refs, j + 1, maxDepth, bound, p);
      var r := GetOwners(c, f, Some(refs[j]), [], j + 1, maxDepth);
      assert r.Ok?;
      assert r.value || !r.value;
      assert r == Ok(r.value);
    }
  }

  /* ---- what that means for an object ---- */

  lemma {:induction false} FollowsPositions(p: seq<nat>, i: nat, maxDepth: nat)
    requires p != []
    ensures Follows(p, i, maxDepth) <==>
      (|p| > 1 ==> i < maxDepth) && forall s | 0 <= s < |p| - 2 :: p[s] + 1 < maxDepth
  {
    if |p| > 1 {
      FollowsPositions(p[1..], p[0] + 1, maxDepth);
      assert forall s | 0 <= s < |p[1..]| - 2 :: p[1..][s] == p[s + 1];
      if |p| > 2 {
        assert (forall s | 0 <= s < |p| - 2 :: p[s] + 1 < maxDepth)
          == (p[0] + 1 < maxDepth && forall s | 0 <= s < |p[1..]| - 2 :: p[1..][s] + 1 < maxDepth);
      }
    }
  }

  // The exact reach of the filter: a matching owner is found iff some chain leads to it whose
  // references, all but the last two, stand among the first maxDepth - 1 of their lists.
  lemma FilterReach(c: Cluster, f: OwnerFilter, refs: seq<Ref>, maxDepth: nat)
    requires Acyclic(c) && (forall r :: c.owners(r).Ok?) && maxDepth > 0
    ensures GetOwners(c, f, None, refs, 0, maxDepth) == Ok(true) <==>
      exists p :: IsPath(c, refs, p) && Leads(f, c, refs, p) && forall s | 0 <= s < |p| - 2 :: p[s] + 1 < maxDepth
  {
    if GetOwners(c, f, None, refs, 0, maxDepth) == Ok(true) {
      var p := SearchIsSound(c, f, None, refs, 0, maxDepth);
      FollowsPositions(p, 0, maxDepth);
    }
    if p :| IsPath(c, refs, p) && Leads(f, c, refs, p) && forall s | 0 <= s < |p| - 2 :: p[s] + 1 < maxDepth {
      FollowsPositions(p, 0, maxDepth);
      SearchIsComplete(c, f, None, refs, 0, maxDepth, p);
    }
  }

  lemma {:induction false} ShortListsShortPositions(c: Cluster, refs: seq<Ref>, p: seq<nat>, n: nat)
    requires IsPath(c, refs, p) && |refs| <= n && forall r | c.owners(r).Ok? :: |c.owners(r).value| <= n
    ensures forall s | 0 <= s < |p| :: p[s] < n
    decreases |p|
  {
    if |p| > 1 {
      ShortListsShortPositions(c, c.owners(refs[p[0]]).value, p[1..], n);
      assert forall s | 1 <= s < |p| :: p[s] == p[1..][s - 1];
    }
  }

  // When no owner list has maxDepth or more entries the search is exhaustive, at any depth.
  lemma ShortListsAreExhaustive(c: Cluster, f: OwnerFilter, refs: seq<Ref>, maxDepth: nat)
    requires Acyclic(c) && forall r :: c.owners(r).Ok?
    requires |refs| < maxDepth && forall r :: |c.owners(r).value| < maxDepth
    ensures GetOwners(c, f, None, refs, 0, maxDepth) == Ok(true) <==>
      exists p :: IsPath(c, refs, p) && Leads(f, c, refs, p)
  {
    FilterReach(c, f, refs, maxDepth);
    if p :| IsPath(c, refs, p) && Leads(f, c, refs, p) {
      ShortListsShortPositions(c, refs, p, maxDepth - 1);
    }
  }

  /* ---- the depth limit limits something else ---- */

  function RootFilter(): OwnerFilter {
    OwnerFilter("v1", "Root")
  }

  function Link(n: nat): Ref {
    Ref("v1", "Link", seq(n, _ => 'x'))
  }

  // A chain of owners: each link is owned by the next shorter one, the last by the root.
  function Chain(): Cluster {
    Cluster(
      (r: Ref) =>
        if r.kind != "Link" then Ok([])
        else Ok(if |r.name| == 0 then [Ref("v1", "Root", "")] else [Link(|r.name| - 1)]),
      (r: Ref) => if r.kind == "Link" then |r.name| + 1 else 0)
  }

  lemma {:induction false} ChainPath(n: nat)
    ensures IsPath(Chain(), [Link(n)], seq(n + 2, _ => 0))
    ensures End(Chain(), [Link(n)], seq(n + 2, _ => 0)) == Ref("v1", "Root", "")
  {
    var p := seq(n + 2, _ => 0);
    assert p[1..] == seq(n + 1, _ => 0);
    if n == 0 {
      assert Chain().owners(Link(0)) == Ok([Ref("v1", "Root", "")]);
      assert IsPath(Chain(), [Ref("v1", "Root", "")], p[1..]);
    } else {
      assert Chain().owners(Link(n)) == Ok([Link(n - 1)]);
      ChainPath(n - 1);
    }
  }

  // With the configured depth of 5, the root is found at the end of a chain of any length.
  lemma DepthIsNotLimited(n: nat)
    ensures Acyclic(Chain())
    ensures GetOwners(Chain(), RootFilter(), None, [Link(n)], 0, 5) == Ok(true)
  {
    ChainPath(n);
    assert Leads(RootFilter(), Chain(), [Link(n)], seq(n + 2, _ => 0));
    ShortListsAreExhaustive(Chain(), RootFilter(), [Link(n)], 5);
  }

  // Five owners, the last of which leads to the root two steps up; the others lead nowhere.
  function Wide(): Cluster {
    Cluster(
      (r: Ref) =>
        Ok(if r.kind == "B" then [Ref("v1", "C", "")] else if r.kind == "C" then [Ref("v1", "Root", "")] else []),
      (r: Ref) => if r.kind == "B" then 2 else if r.kind == "C" then 1 else 0)
  }

  function FiveOwners(): seq<Ref> {
    seq(5, j => Ref("v1", if j < 4 then "A" else "B", ""))
  }

  lemma NoneOfTheFive(r: Ref)
    requires r in FiveOwners() || r == Ref("v1", "C", "")
    ensures !IsMatch(RootFilter(), r)
  {
    assert |r.kind| == 1;
  }

  // Looking further from any of the five finds nothing: the owner of the fifth is looked at, but
  // by then the depth handed on is used up.
  lemma OneDeadEnd(j: nat)
    requires Acyclic(Wide()) && j < 5
    ensures GetOwners(Wide(), RootFilter(), Some(FiveOwners()[j]), [], j + 1, 5) == Ok(false)
  {
    var o := FiveOwners()[j];
    if j < 4 {
      assert Wide().owners(o) == Ok([]);
    } else {
      assert Wide().owners(o) == Ok([Ref("v1", "C", "")]);
      NoneOfTheFive(Ref("v1", "C", ""));
    }
  }

  lemma {:induction false} DeadEnd(j: nat)
    requires Acyclic(Wide()) && j <= 5
    ensures SearchFrom(Wide(), RootFilter(), FiveOwners(), j, 5, RanksBelow(Wide(), FiveOwners())) == Ok(false)
    decreases 5 - j
  {
    if j < 5 {
      DeadEnd(j + 1);
      OneDeadEnd(j);
    }
  }

  lemma FifthOwnerPath()
    ensures IsPath(Wide(), FiveOwners(), [4, 0, 0])
    ensures End(Wide(), FiveOwners(), [4, 0, 0]) == Ref("v1", "Root", "")
  {
    assert [4, 0, 0][1..] == [0, 0] && [0, 0][1..] == [0];
    assert FiveOwners()[4] == Ref("v1", "B", "");
    assert IsPath(Wide(), [Ref("v1", "Root", "")], [0]);
    assert IsPath(Wide(), [Ref("v1", "C", "")], [0, 0]);
  }

  lemma LoopDecides(c: Cluster, f: OwnerFilter, refs: seq<Ref>, maxDepth: nat)
    requires Acyclic(c) && maxDepth > 0 && forall r | r in refs :: !IsMatch(f, r)
    ensures GetOwners(c, f, None, refs, 0, maxDepth) == SearchFrom(c, f, refs, 0, maxDepth, RanksBelow(c, refs))
  {
  }

  lemma WideIsAcyclic()
    ensures Acyclic(Wide())
  {
    assert |"B"| == |"C"| == 1 && "B"[0] != "C"[0] && |"Root"| == 4;
  }

  lemma FiveAreCutShort()
    requires Acyclic(Wide())
    ensures GetOwners(Wide(), RootFilter(), None, FiveOwners(), 0, 5) == Ok(false)
  {
    forall r | r in FiveOwners() ensures !IsMatch(RootFilter(), r) {
      NoneOfTheFive(r);
    }
    LoopDecides(Wide(), RootFilter(), FiveOwners(), 5);
    DeadEnd(0);
  }

  // The same root, three steps away, is missed when the way to it starts at the fifth owner.
  lemma FifthOwnerIsCutShort()
    ensures Acyclic(Wide())
    ensures exists p :: IsPath(Wide(), FiveOwners(), p) && Leads(RootFilter(), Wide(), FiveOwners(), p)
    ensures GetOwners(Wide(), RootFilter(), None, FiveOwners(), 0, 5) == Ok(false)
  {
    WideIsAcyclic();
    assert exists p :: IsPath(Wide(), FiveOwners(), p) && Leads(RootFilter(), Wide(), FiveOwners(), p) by {
      FifthOwnerPath();
      assert Leads(RootFilter(), Wide(), FiveOwners(), [4, 0, 0]);
    }
    FiveAreCutShort();
  }
}

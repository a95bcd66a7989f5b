/**
 Project identities. A registry is built from the stored descriptors, in any order, and refuses a
 list in which two projects share an id, an alias or a case-folded repository.
 */
module ProjectRegistry {

  import opened Wrappers

  datatype ProjectDescriptor = ProjectDescriptor(
    projectId: string, repository: string, ref: string, aliases: seq<string>)

  /** What the descriptor's own constructor enforces about its identities. */
  predicate ValidProject(p: ProjectDescriptor) {
    && p.projectId != ""
    && p.projectId !in p.aliases
    && (forall i, j | 0 <= i < j < |p.aliases| :: p.aliases[i] != p.aliases[j])
  }

  function Identities(p: ProjectDescriptor): seq<string> { [p.projectId] + p.aliases }

  /** The two indexes of a registry. */
  datatype Registry = Registry(byIdentity: map<string, ProjectDescriptor>, byRepository: map<string, ProjectDescriptor>)

  predicate Clash(fold: string -> string, p: ProjectDescriptor, q: ProjectDescriptor) {
    || (exists s | s in Identities(p) :: s in Identities(q))
    || fold(p.repository) == fold(q.repository)
  }

  /** No two of the projects share an identity or a repository. */
  predicate Compatible(fold: string -> string, ps: seq<ProjectDescriptor>) {
    forall i, j | 0 <= i < j < |ps| :: !Clash(fold, ps[i], ps[j])
  }

  /** The first project that answers to `identity`. */
  function Resolve(ps: seq<ProjectDescriptor>, identity: string): Option<ProjectDescriptor> {
    if ps == [] then None
    else if identity in Identities(ps[0]) then Some(ps[0])
    else Resolve(ps[1..], identity)
  }

  lemma {:induction false} ResolveFinds(ps: seq<ProjectDescriptor>, identity: string)
    ensures match Resolve(ps, identity)
      case Some(p) => p in ps && identity in Identities(p)
      case None => forall p | p in ps :: identity !in Identities(p)
  {
    if ps != [] && identity !in Identities(ps[0]) {
      ResolveFinds(ps[1..], identity);
    }
  }

  /** In a compatible list an identity belongs to one project only. */
  lemma OwnerIsUnique(fold: string -> string, ps: seq<ProjectDescriptor>, identity: string, p: ProjectDescriptor)
    requires Compatible(fold, ps) && p in ps && identity in Identities(p)
    ensures Resolve(ps, identity) == Some(p)
  {
    ResolveFinds(ps, identity);
    var q := Resolve(ps, identity).value;
    var i :| 0 <= i < |ps| && ps[i] == p;
    var j :| 0 <= j < |ps| && ps[j] == q;
    assert i < j ==> Clash(fold, ps[i], ps[j]);
    assert j < i ==> Clash(fold, ps[j], ps[i]);
  }

  /** Registering one more compatible project changes the answer of no identity that already resolves. */
  lemma ResolutionIsStable(fold: string -> string, ps: seq<ProjectDescriptor>, p: ProjectDescriptor, identity: string)
    requires Compatible(fold, ps + [p])
    ensures Compatible(fold, ps)
    ensures Resolve(ps, identity).Some? ==> Resolve(ps + [p], identity) == Resolve(ps, identity)
  {
    var all := ps + [p];
    forall i, j | 0 <= i < j < |ps| ensures !Clash(fold, ps[i], ps[j]) {
      assert !Clash(fold, all[i], all[j]);
    }
    if Resolve(ps, identity).Some? {
      ResolveFinds(ps, identity);
      OwnerIsUnique(fold, all, identity, Resolve(ps, identity).value);
    }
  }

  lemma ClashIsSymmetric(fold: string -> string, p: ProjectDescriptor, q: ProjectDescriptor)
    ensures Clash(fold, p, q) == Clash(fold, q, p)
  {
  }

  /** Listing the same projects in another order gives a registry that answers the same. */
  lemma OrderDoesNotMatter(fold: string -> string, ps: seq<ProjectDescriptor>, qs: seq<ProjectDescriptor>, identity: string)
    requires multiset(ps) == multiset(qs) && Compatible(fold, ps)
    ensures Compatible(fold, qs)
    ensures Resolve(qs, identity) == Resolve(ps, identity)
  {
    forall p ensures p in ps <==> p in qs {
      assert p in multiset(ps) <==> p in multiset(qs);
    }
    forall i, j | 0 <= i < j < |qs| ensures !Clash(fold, qs[i], qs[j]) {
      CompatiblePair(fold, ps, qs, i, j);
    }
    ResolveFinds(ps, identity);
    ResolveFinds(qs, identity);
    if Resolve(ps, identity).Some? {
      OwnerIsUnique(fold, qs, identity, Resolve(ps, identity).value);
    }
  }

  lemma {:induction false} ListedOnce(fold: string -> string, ps: seq<ProjectDescriptor>, p: ProjectDescriptor)
    requires Compatible(fold, ps)
    ensures multiset(ps)[p] <= 1
  {
    if ps != [] {
      ListedOnce(fold, ps[1..], p);
      assert ps == [ps[0]] + ps[1..];
      assert p == ps[0] ==> p !in ps[1..] by {
        assert p.projectId in Identities(p);
        assert forall j | 1 <= j < |ps| :: !Clash(fold, ps[0], ps[j]);
      }
    }
  }

  lemma ListedTwice(qs: seq<ProjectDescriptor>, i: nat, j: nat)
    requires i < j < |qs| && qs[i] == qs[j]
    ensures multiset(qs)[qs[i]] >= 2
  {
    assert qs == qs[..j] + qs[j..];
    assert qs[..j][i] == qs[i] && qs[j..][0] == qs[j];
    assert multiset(qs) == multiset(qs[..j]) + multiset(qs[j..]);
    assert qs[i] in multiset(qs[..j]) && qs[j] in multiset(qs[j..]);
  }

  lemma CompatiblePair(fold: string -> string, ps: seq<ProjectDescriptor>, qs: seq<ProjectDescriptor>, i: nat, j: nat)
    requires multiset(ps) == multiset(qs) && Compatible(fold, ps) && i < j < |qs|
    ensures !Clash(fold, qs[i], qs[j])
  {
    var p, q := qs[i], qs[j];
    assert p in multiset(qs) && q in multiset(qs);
    var a :| 0 <= a < |ps| && ps[a] == p;
    var b :| 0 <= b < |ps| && ps[b] == q;
    assert a != b by {
      ListedOnce(fold, ps, p);
      if p == q {
        ListedTwice(qs, i, j);
      }
    }
    ClashIsSymmetric(fold, p, q);
    assert a < b ==> !Clash(fold, ps[a], ps[b]);
    assert b < a ==> !Clash(fold, ps[b], ps[a]);
  }

  // ---- Building the indexes ----

  /** The indexes hold exactly the projects' identities and folded repositories. */
  ghost predicate Indexes(fold: string -> string, ps: seq<ProjectDescriptor>, r: Registry) {
    && (forall p, s | p in ps && s in Identities(p) :: s in r.byIdentity && r.byIdentity[s] == p)
    && (forall s | s in r.byIdentity :: r.byIdentity[s] in ps && s in Identities(r.byIdentity[s]))
    && (forall p | p in ps :: fold(p.repository) in r.byRepository && r.byRepository[fold(p.repository)] == p)
    && (forall k | k in r.byRepository :: r.byRepository[k] in ps && fold(r.byRepository[k].repository) == k)
  }

  function WithIdentities(index: map<string, ProjectDescriptor>, ids: seq<string>, p: ProjectDescriptor)
    : (r: map<string, ProjectDescriptor>)
    ensures forall s :: s in r <==> s in index || s in ids
    ensures forall s | s in r :: r[s] == if s in ids then p else index[s]
  {
    if ids == [] then index else WithIdentities(index, ids[..|ids| - 1], p)[ids[|ids| - 1] := p]
  }

  lemma DistinctIdentities(p: ProjectDescriptor, m: nat)
    requires ValidProject(p) && m < |Identities(p)|
    ensures Identities(p)[m] !in Identities(p)[..m]
    ensures Identities(p)[..m + 1] == Identities(p)[..m] + [Identities(p)[m]]
  {
  }

  /** Adds every identity of `project`, or fails because one of them is taken. */
  method AddIdentities(index: map<string, ProjectDescriptor>, project: ProjectDescriptor)
    returns (r: Option<map<string, ProjectDescriptor>>)
    requires ValidProject(project)
    ensures r.None? <==> exists s | s in Identities(project) :: s in index
    ensures r.Some? ==> r.value == WithIdentities(index, Identities(project), project)
  {
    var identities := Identities(project);
    var byIdentity := index;
    for m := 0 to |identities|
      invariant byIdentity == WithIdentities(index, identities[..m], project)
      invariant forall s | s in identities[..m] :: s !in index
    {
      var identity := identities[m];
      DistinctIdentities(project, m);
      if identity in byIdentity {
        return None;
      }
      byIdentity := byIdentity[identity := project];
      assert identities[..m + 1][..m] == identities[..m];
    }
    assert identities[..|identities|] == identities;
    return Some(byIdentity);
  }

  /** Succeeds exactly on compatible lists, and then answers as `Resolve` does. */
  method Build(fold: string -> string, ps: seq<ProjectDescriptor>) returns (r: Option<Registry>)
    requires forall p | p in ps :: ValidProject(p)
    ensures r.Some? <==> Compatible(fold, ps)
    ensures r.Some? ==> Indexes(fold, ps, r.value)
    ensures r.Some? ==> forall s :: Resolve(ps, s) == if s in r.value.byIdentity then Some(r.value.byIdentity[s]) else None
  {
    var built := Registry(map[], map[]);
    for n := 0 to |ps|
      invariant Indexes(fold, ps[..n], built)
      invariant Compatible(fold, ps[..n])
    {
      var project := ps[n];
      assert ps[..n + 1] == ps[..n] + [project];
      AddedOrClash(fold, ps, n, built);
      var added := AddIdentities(built.byIdentity, project);
      if added.None? {
        return None;
      }
      var repositoryKey := fold(project.repository);
      if repositoryKey in built.byRepository {
        return None;
      }
      built := Registry(added.value, built.byRepository[repositoryKey := project]);
    }
    assert ps[..|ps|] == ps;
    IndexAnswers(fold, ps, built);
    return Some(built);
  }

  lemma IndexAnswers(fold: string -> string, ps: seq<ProjectDescriptor>, r: Registry)
    requires Indexes(fold, ps, r)
    ensures forall s :: Resolve(ps, s) == if s in r.byIdentity then Some(r.byIdentity[s]) else None
  {
    forall s ensures Resolve(ps, s) == if s in r.byIdentity then Some(r.byIdentity[s]) else None {
      ResolveFinds(ps, s);
    }
  }

  /** The next project either clashes with an earlier one or extends the indexes. */
  lemma AddedOrClash(fold: string -> string, ps: seq<ProjectDescriptor>, n: nat, r: Registry)
    requires n < |ps| && Compatible(fold, ps[..n]) && Indexes(fold, ps[..n], r)
    ensures var p := ps[n];
      if (exists s | s in Identities(p) :: s in r.byIdentity) || fold(p.repository) in r.byRepository then
        !Compatible(fold, ps)
      else
        && Compatible(fold, ps[..n] + [p])
        && Indexes(fold, ps[..n] + [p], Registry(WithIdentities(r.byIdentity, Identities(p), p),
                                                 r.byRepository[fold(p.repository) := p]))
  {
    var p := ps[n];
    if s :| s in Identities(p) && s in r.byIdentity {
      SharedIdentity(fold, ps, n, r.byIdentity[s], s);
    } else if fold(p.repository) in r.byRepository {
      SharedRepository(fold, ps, n, r.byRepository[fold(p.repository)]);
    } else {
      OneMoreCompatible(fold, ps, n, r.byIdentity);
      assert ps[..n] + [p] == ps[..n + 1];
      OneMoreIndexed(fold, ps[..n], p, r);
    }
  }

  lemma OneMoreIndexed(fold: string -> string, ps: seq<ProjectDescriptor>, p: ProjectDescriptor, r: Registry)
    requires Indexes(fold, ps, r)
    requires fold(p.repository) !in r.byRepository && forall s | s in Identities(p) :: s !in r.byIdentity
    ensures Indexes(fold, ps + [p], Registry(WithIdentities(r.byIdentity, Identities(p), p),
                                             r.byRepository[fold(p.repository) := p]))
  {
  }

  lemma SharedIdentity(fold: string -> string, ps: seq<ProjectDescriptor>, n: nat, q: ProjectDescriptor, s: string)
    requires n < |ps| && q in ps[..n] && s in Identities(q) && s in Identities(ps[n])
    ensures !Compatible(fold, ps)
  {
    var i :| 0 <= i < n && ps[i] == q;
    assert Clash(fold, ps[i], ps[n]);
  }

  lemma SharedRepository(fold: string -> string, ps: seq<ProjectDescriptor>, n: nat, q: ProjectDescriptor)
    requires n < |ps| && q in ps[..n] && fold(q.repository) == fold(ps[n].repository)
    ensures !Compatible(fold, ps)
  {
    var i :| 0 <= i < n && ps[i] == q;
    assert Clash(fold, ps[i], ps[n]);
  }

  lemma OneMoreCompatible(fold: string -> string, ps: seq<ProjectDescriptor>, n: nat, index: map<string, ProjectDescriptor>)
    requires n < |ps| && Compatible(fold, ps[..n])
    requires forall p, s | p in ps[..n] && s in Identities(p) :: s in index
    requires forall s | s in Identities(ps[n]) :: s !in index
    requires forall p | p in ps[..n] :: fold(p.repository) != fold(ps[n].repository)
    ensures Compatible(fold, ps[..n + 1])
  {
    var ps' := ps[..n + 1];
    forall i, j | 0 <= i < j < |ps'| ensures !Clash(fold, ps'[i], ps'[j]) {
      if j < n {
        assert !Clash(fold, ps[..n][i], ps[..n][j]);
      } else {
        assert ps'[i] in ps[..n];
      }
    }
  }
}

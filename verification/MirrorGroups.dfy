/** Mirror groups of the fleet: the union-find inside `mirrorCanonicalizer`
    (`fleetinventory/score.go`). */
module MirrorGroups {

  type Pair = (string, string)

  // ---- the reference: the equivalence closure of the declared pairs ----

  ghost predicate Linked(pairs: set<Pair>, a: string, b: string) {
    (a, b) in pairs || (b, a) in pairs
  }

  ghost predicate IsPath(pairs: set<Pair>, path: seq<string>, a: string, b: string) {
    && path != [] && path[0] == a && path[|path| - 1] == b
    && forall i :: 0 <= i < |path| - 1 ==> Linked(pairs, path[i], path[i + 1])
  }

  ghost predicate Connected(pairs: set<Pair>, a: string, b: string) {
    exists path :: IsPath(pairs, path, a, b)
  }

  lemma ConnectedReflexive(pairs: set<Pair>, a: string)
    ensures Connected(pairs, a, a)
  {
    assert IsPath(pairs, [a], a, a);
  }

  lemma ConnectedByPair(pairs: set<Pair>, a: string, b: string)
    requires Linked(pairs, a, b)
    ensures Connected(pairs, a, b)
  {
    assert IsPath(pairs, [a, b], a, b);
  }

  lemma ConnectedTransitive(pairs: set<Pair>, a: string, b: string, c: string)
    requires Connected(pairs, a, b) && Connected(pairs, b, c)
    ensures Connected(pairs, a, c)
  {
    var p :| IsPath(pairs, p, a, b);
    var q :| IsPath(pairs, q, b, c);
    var r := p + q[1..];
    forall i | 0 <= i < |r| - 1 ensures Linked(pairs, r[i], r[i + 1]) {
      if i >= |p| - 1 { assert Linked(pairs, q[i - |p| + 1], q[i - |p| + 2]); }
    }
    assert IsPath(pairs, r, a, c);
  }

  lemma ConnectedMonotone(pairs: set<Pair>, more: set<Pair>, a: string, b: string)
    requires Connected(pairs, a, b) && pairs <= more
    ensures Connected(more, a, b)
  {
    var p :| IsPath(pairs, p, a, b);
    assert IsPath(more, p, a, b);
  }

  // ---- the forest ----

  /** Who stands for `x`: its representative, or itself when it is not a fleet repository. */
  ghost function Rep(rep: map<string, string>, x: string): string {
    if x in rep then rep[x] else x
  }

  /** What the forest says about one element: its links stay in the fleet, its root is the root of
      its parent, and ranks fall on the way up. */
  ghost predicate Sound(parent: map<string, string>, rep: map<string, string>, rank: map<string, nat>, x: string)
    requires rep.Keys == parent.Keys == rank.Keys && x in parent
  {
    && parent[x] in parent && rep[x] in parent
    && rep[parent[x]] == rep[x] && parent[rep[x]] == rep[x]
    && (if parent[x] == x then rep[x] == x else rank[parent[x]] < rank[x])
    && (rep[x] != x ==> rank[rep[x]] < rank[x])
  }

  /** The parent map is a forest. `rep` names the root above each element and `rank` bounds the
      length of the way there, which is why `find` terminates. */
  ghost predicate IsForest(parent: map<string, string>, rep: map<string, string>, rank: map<string, nat>) {
    && rep.Keys == parent.Keys == rank.Keys
    && forall x {:trigger Sound(parent, rep, rank, x)} :: x in parent ==> Sound(parent, rep, rank, x)
  }

  ghost function Follow(parent: map<string, string>, x: string, n: nat): string
    decreases n
  {
    if n == 0 || x !in parent then x else Follow(parent, parent[x], n - 1)
  }

  /** The representative is where the parent links lead, and they go no further. */
  lemma {:induction false} RepIsReached(parent: map<string, string>, rep: map<string, string>, rank: map<string, nat>, x: string)
    requires IsForest(parent, rep, rank) && x in parent
    ensures Follow(parent, x, rank[x]) == rep[x] && rep[x] in parent && parent[rep[x]] == rep[x]
    decreases rank[x]
  {
    assert Sound(parent, rep, rank, x);
    if parent[x] == x {
      RootStays(parent, x, rank[x]);
    } else {
      RepIsReached(parent, rep, rank, parent[x]);
      FollowFurther(parent, parent[x], rank[parent[x]], rank[x] - 1);
    }
  }

  lemma {:induction false} RootStays(parent: map<string, string>, x: string, n: nat)
    requires x in parent && parent[x] == x
    ensures Follow(parent, x, n) == x
  {
    if n > 0 { RootStays(parent, x, n - 1); }
  }

  /** Once at a root, more steps change nothing. */
  lemma {:induction false} FollowFurther(parent: map<string, string>, x: string, m: nat, n: nat)
    requires m <= n && Follow(parent, x, m) in parent
    requires parent[Follow(parent, x, m)] == Follow(parent, x, m)
    ensures Follow(parent, x, n) == Follow(parent, x, m)
    decreases m
  {
    if m == 0 {
      RootStays(parent, x, n);
    } else if x in parent {
      FollowFurther(parent, parent[x], m - 1, n - 1);
    }
  }

  /** Path compression keeps the forest with the very same representatives. */
  lemma CompressionKeepsReps(parent: map<string, string>, rep: map<string, string>, rank: map<string, nat>, x: string)
    requires IsForest(parent, rep, rank) && x in parent && parent[x] != x
    ensures IsForest(parent[x := rep[x]], rep, rank)
  {
    forall y | y in parent ensures Sound(parent[x := rep[x]], rep, rank, y) {
      assert Sound(parent, rep, rank, x) && Sound(parent, rep, rank, y);
      assert Sound(parent, rep, rank, rep[x]) && Sound(parent, rep, rank, rep[y]);
    }
  }

  lemma RepsAreRoots(parent: map<string, string>, rep: map<string, string>, rank: map<string, nat>)
    requires IsForest(parent, rep, rank)
    ensures rep.Values <= rep.Keys
    ensures forall x :: x in rep.Values ==> rep[x] == x
  {
    forall x | x in rep.Values ensures x in rep && rep[x] == x {
      var y :| y in rep && rep[y] == x;
      assert Sound(parent, rep, rank, y);
      assert Sound(parent, rep, rank, x);
    }
  }

  ghost function Merged(rep: map<string, string>, ra: string, rb: string): map<string, string> {
    map x | x in rep :: if rep[x] == rb then ra else rep[x]
  }

  ghost function Lifted(rep: map<string, string>, rank: map<string, nat>, ra: string, rb: string): map<string, nat>
    requires ra in rank && rank.Keys == rep.Keys
  {
    map x | x in rep :: if rep[x] == rb then rank[x] + rank[ra] + 1 else rank[x]
  }

  /** Hanging root `rb` below root `ra` gives the forest in which exactly those two trees are one. */
  lemma LinkKeepsForest(parent: map<string, string>, rep: map<string, string>, rank: map<string, nat>, ra: string, rb: string)
    requires IsForest(parent, rep, rank) && ra in parent && rb in parent && ra != rb
    requires rep[ra] == ra && rep[rb] == rb
    ensures IsForest(parent[rb := ra], Merged(rep, ra, rb), Lifted(rep, rank, ra, rb))
  {
    forall y | y in parent ensures Sound(parent[rb := ra], Merged(rep, ra, rb), Lifted(rep, rank, ra, rb), y) {
      assert Sound(parent, rep, rank, ra) && Sound(parent, rep, rank, rb) && Sound(parent, rep, rank, y);
      assert Sound(parent, rep, rank, rep[y]);
    }
  }

  /** Two names are in one group exactly when the declared pairs connect them. */
  ghost predicate Faithful(rep: map<string, string>, pairs: set<Pair>) {
    forall a, b {:trigger Connected(pairs, a, b)} :: Rep(rep, a) == Rep(rep, b) <==> Connected(pairs, a, b)
  }

  /** A labelling that agrees on every pair agrees on everything the pairs connect. */
  lemma {:induction false} LabelConstantOnPath(rep: map<string, string>, pairs: set<Pair>, path: seq<string>, a: string, b: string)
    requires IsPath(pairs, path, a, b)
    requires forall x, y :: (x, y) in pairs ==> Rep(rep, x) == Rep(rep, y)
    ensures Rep(rep, a) == Rep(rep, b)
  {
    if |path| > 1 {
      assert Linked(pairs, path[0], path[1]);
      forall i | 0 <= i < |path[1..]| - 1 ensures Linked(pairs, path[1..][i], path[1..][i + 1]) {
        assert Linked(pairs, path[i + 1], path[i + 1 + 1]);
      }
      LabelConstantOnPath(rep, pairs, path[1..], path[1], b);
    }
  }

  /** Everything the merged labelling identifies is connected once the new pair is declared. */
  lemma MergedIsConnected(rep: map<string, string>, pairs: set<Pair>, p: string, q: string, a: string, b: string)
    requires p in rep && q in rep && rep.Values <= rep.Keys && Faithful(rep, pairs)
    requires Rep(Merged(rep, rep[p], rep[q]), a) == Rep(Merged(rep, rep[p], rep[q]), b)
    ensures Connected(pairs + {(p, q)}, a, b)
  {
    var more := pairs + {(p, q)};
    forall x, y | Rep(rep, x) == Rep(rep, y) ensures Connected(more, x, y) {
      assert Connected(pairs, x, y);
      ConnectedMonotone(pairs, more, x, y);
    }
    ConnectedByPair(more, p, q);
    ConnectedByPair(more, q, p);
    if Rep(rep, a) != Rep(rep, b) {
      var (from, to) := if Rep(rep, a) == rep[p] then (p, q) else (q, p);
      ConnectedTransitive(more, a, from, to);
      ConnectedTransitive(more, a, to, b);
    }
  }

  /** Merging the trees of `p` and `q` adds exactly the pair (p, q) to the closure. */
  lemma MergeAddsPair(rep: map<string, string>, pairs: set<Pair>, p: string, q: string)
    requires p in rep && q in rep && rep.Values <= rep.Keys && Faithful(rep, pairs)
    ensures Faithful(Merged(rep, rep[p], rep[q]), pairs + {(p, q)})
  {
    var rep', more := Merged(rep, rep[p], rep[q]), pairs + {(p, q)};
    forall x, y | (x, y) in more ensures Rep(rep', x) == Rep(rep', y) {
      if (x, y) in pairs {
        ConnectedByPair(pairs, x, y);
        assert Rep(rep, x) == Rep(rep, y);
      }
    }
    forall a, b ensures Rep(rep', a) == Rep(rep', b) <==> Connected(more, a, b) {
      if Connected(more, a, b) {
        var path :| IsPath(more, path, a, b);
        LabelConstantOnPath(rep', more, path, a, b);
      } else if Rep(rep', a) == Rep(rep', b) {
        MergedIsConnected(rep, pairs, p, q, a, b);
      }
    }
  }

  lemma MergeWithItself(rep: map<string, string>, r: string)
    ensures Merged(rep, r, r) == rep
  {
  }

  lemma NoPairsNoGroups(rep: map<string, string>)
    requires forall x :: x in rep ==> rep[x] == x
    ensures Faithful(rep, {})
  {
    forall a, b ensures Rep(rep, a) == Rep(rep, b) <==> Connected({}, a, b) {
      if a == b {
        ConnectedReflexive({}, a);
      } else if Connected({}, a, b) {
        var path :| IsPath({}, path, a, b);
        LabelConstantOnPath(rep, {}, path, a, b);
      }
    }
  }

  // ---- the declared pairs ----

  /** A fleet repository with the mirror lists of its mirror-parity files. */
  datatype Repo = Repo(name: string, dir: string, files: seq<seq<string>>)

  function Fleet(repos: seq<Repo>): set<string> {
    set r | r in repos :: r.name
  }

  /** A standalone repository joins only if it is named and itself in the fleet. */
  ghost function FilePairs(fleet: set<string>, name: string, mirrors: seq<string>): set<Pair> {
    set m | m in mirrors && m != "" && m in fleet :: (name, m)
  }

  ghost function RepoPairs(fleet: set<string>, name: string, files: seq<seq<string>>): set<Pair> {
    set f, p | f in files && p in FilePairs(fleet, name, f) :: p
  }

  ghost function Declared(fleet: set<string>, repos: seq<Repo>): set<Pair> {
    set r, p | r in repos && r.dir != "" && p in RepoPairs(fleet, r.name, r.files) :: p
  }

  /** A mirror that a repository with a directory lists, and that is itself in the fleet, is in the
      repository's group. */
  lemma ListedMirrorJoins(repos: seq<Repo>, r: Repo, file: seq<string>, mirror: Repo)
    requires r in repos && r.dir != "" && file in r.files && mirror in repos && mirror.name != "" && mirror.name in file
    ensures Connected(Declared(Fleet(repos), repos), r.name, mirror.name)
  {
    var fleet := Fleet(repos);
    assert (r.name, mirror.name) in FilePairs(fleet, r.name, file);
    assert (r.name, mirror.name) in RepoPairs(fleet, r.name, r.files);
    ConnectedByPair(Declared(fleet, repos), r.name, mirror.name);
  }

  /** Repository `a` has a directory and lists `b` as a mirror in one of its mirror-parity files. */
  ghost predicate Lists(repos: seq<Repo>, a: string, b: string) {
    exists r, file :: r in repos && r.name == a && r.dir != "" && file in r.files && b in file
  }

  lemma LinkedMeansListed(repos: seq<Repo>, a: string, b: string)
    requires Linked(Declared(Fleet(repos), repos), a, b)
    ensures a in Fleet(repos) && b in Fleet(repos) && (Lists(repos, a, b) || Lists(repos, b, a))
  {
  }

  lemma {:induction false} PathStays(repos: seq<Repo>, group: set<string>, path: seq<string>, a: string, b: string)
    requires IsPath(Declared(Fleet(repos), repos), path, a, b) && a in group
    requires forall x, y :: x in group && y in Fleet(repos) && (Lists(repos, x, y) || Lists(repos, y, x)) ==> y in group
    ensures b in group
  {
    if |path| > 1 {
      LinkedMeansListed(repos, path[0], path[1]);
      PathStays(repos, group, path[1..], path[1], b);
    }
  }

  /** A set of names that no listing leads into or out of is kept apart: nothing in it shares a group
      with anything outside. */
  lemma UnlistedStayApart(repos: seq<Repo>, group: set<string>, a: string, b: string)
    requires forall x, y :: x in group && y in Fleet(repos) && (Lists(repos, x, y) || Lists(repos, y, x)) ==> y in group
    requires a in group && b !in group
    ensures !Connected(Declared(Fleet(repos), repos), a, b)
  {
    if Connected(Declared(Fleet(repos), repos), a, b) {
      var path :| IsPath(Declared(Fleet(repos), repos), path, a, b);
      PathStays(repos, group, path, a, b);
    }
  }

  /** The closure state shared by `find`, `union` and the returned function. */
  class Canonicalizer {
    var parent: map<string, string>
    ghost var rep: map<string, string>
    ghost var rank: map<string, nat>
    ghost var pairs: set<Pair>

    ghost predicate Valid()
      reads this
    {
      IsForest(parent, rep, rank) && Faithful(rep, pairs)
    }

    /** `find`, with path compression. It always terminates and moves no representative. */
    method Find(x: string) returns (root: string)
      requires Valid()
      modifies this`parent
      ensures Valid() && parent.Keys == old(parent).Keys
      ensures root == Rep(rep, x)
      decreases if x in rank then rank[x] else 0
    {
      assert x in parent ==> Sound(parent, rep, rank, x);
      if x !in parent || parent[x] == x { return x; }
      root := Find(parent[x]);
      assert Sound(parent, rep, rank, x);
      CompressionKeepsReps(parent, rep, rank, x);
      parent := parent[x := root];
    }

    method Union(a: string, b: string)
      requires Valid() && a in parent && b in parent
      modifies this
      ensures Valid() && parent.Keys == old(parent).Keys
      ensures pairs == old(pairs) + {(a, b)}
    {
      var ra := Find(a);
      var rb := Find(b);
      RepsAreRoots(parent, rep, rank);
      MergeAddsPair(rep, pairs, a, b);
      pairs := pairs + {(a, b)};
      if ra != rb {
        LinkKeepsForest(parent, rep, rank, ra, rb);
        parent := parent[rb := ra];
        rank := Lifted(rep, rank, ra, rb);
        rep := Merged(rep, ra, rb);
      } else {
        MergeWithItself(rep, ra);
      }
    }

    /** `mirrorCanonicalizer`: after all declarations two names have one representative exactly when
        the declared in-fleet pairs connect them. */
    constructor (repos: seq<Repo>)
      ensures Valid() && parent.Keys == Fleet(repos) && pairs == Declared(Fleet(repos), repos)
    {
      var fleet := set r | r in repos :: r.name;
      parent := map x | x in fleet :: x;
      rep := map x | x in fleet :: x;
      rank := map x | x in fleet :: 0;
      pairs := {};
      new;
      NoPairsNoGroups(rep);
      for k := 0 to |repos|
        invariant Valid() && parent.Keys == fleet && pairs == Declared(fleet, repos[..k])
      {
        var r := repos[k];
        assert repos[..k + 1] == repos[..k] + [r];
        if r.dir != "" {
          JoinRepo(fleet, r);
        }
      }
      assert repos[..|repos|] == repos;
    }

    method JoinRepo(fleet: set<string>, r: Repo)
      requires Valid() && parent.Keys == fleet && r.name in fleet
      modifies this
      ensures Valid() && parent.Keys == fleet
      ensures pairs == old(pairs) + RepoPairs(fleet, r.name, r.files)
    {
      for i := 0 to |r.files|
        invariant Valid() && parent.Keys == fleet
        invariant pairs == old(pairs) + RepoPairs(fleet, r.name, r.files[..i])
      {
        assert r.files[..i + 1] == r.files[..i] + [r.files[i]];
        JoinFile(fleet, r.name, r.files[i]);
      }
      assert r.files[..|r.files|] == r.files;
    }

    method JoinFile(fleet: set<string>, name: string, mirrors: seq<string>)
      requires Valid() && parent.Keys == fleet && name in fleet
      modifies this
      ensures Valid() && parent.Keys == fleet
      ensures pairs == old(pairs) + FilePairs(fleet, name, mirrors)
    {
      for j := 0 to |mirrors|
        invariant Valid() && parent.Keys == fleet
        invariant pairs == old(pairs) + FilePairs(fleet, name, mirrors[..j])
      {
        assert mirrors[..j + 1] == mirrors[..j] + [mirrors[j]];
        if mirrors[j] != "" && mirrors[j] in fleet {
          Union(name, mirrors[j]);
        }
      }
      assert mirrors[..|mirrors|] == mirrors;
    }

    /** The returned function. Its answers identify two names exactly when they are connected. */
    method Canon(repo: string) returns (group: string)
      requires Valid()
      modifies this`parent
      ensures Valid() && parent.Keys == old(parent).Keys && group == Rep(rep, repo)
      ensures forall other :: group == Rep(rep, other) <==> Connected(pairs, repo, other)
    {
      if repo in parent {
        group := Find(repo);
      } else {
        group := repo;
      }
    }
  }
}

/** The HTTP-level router of `gateway/affinity.go`: consistent hashing plus sticky overrides. */
module Affinity {
  import opened ConsistentHash

  /** What the router holds between calls. */
  datatype Table = Table(upstreams: seq<string>, sticky: map<string, string>)

  /** A pin counts only while its upstream is still in the list. */
  predicate Pinned(t: Table, session: string) {
    session in t.sticky && t.sticky[session] in t.upstreams
  }

  /** The upstreams a session may be routed to: its live pin, or else the clockwise nearest one. */
  ghost predicate RoutesTo(hash: Hash, replicas: nat, t: Table, session: string, upstream: string) {
    if Pinned(t, session) then upstream == t.sticky[session]
    else if t.upstreams == [] then upstream == ""
    else Nearest(hash, Pool(t.upstreams), replicas, hash(session), upstream)
  }

  function Index(us: seq<string>, name: string): (i: nat)
    ensures i <= |us| && (i < |us| <==> name in us)
    ensures i < |us| ==> us[i] == name
    ensures name !in us[..i]
  {
    if us == [] || us[0] == name then 0 else 1 + Index(us[1..], name)
  }

  function WithoutPins(sticky: map<string, string>, keep: set<string>): map<string, string> {
    map s | s in sticky && sticky[s] in keep :: sticky[s]
  }

  function Added(t: Table, name: string): Table {
    if name in t.upstreams then t else t.(upstreams := t.upstreams + [name])
  }

  /** Only the first occurrence leaves the list, but every pin to the name is dropped. */
  function Removed(t: Table, name: string): Table {
    var i := Index(t.upstreams, name);
    Table(if i == |t.upstreams| then t.upstreams else t.upstreams[..i] + t.upstreams[i + 1..],
          map s | s in t.sticky && t.sticky[s] != name :: t.sticky[s])
  }

  // ---- the routing laws ----

  /** With no cross-upstream collisions the table determines the answer, and only through the set of
      upstreams and the session's live pin. */
  lemma RouteDetermined(hash: Hash, replicas: nat, t: Table, t': Table, session: string, a: string, b: string)
    requires CollisionFree(hash, Pool(t.upstreams), replicas) && Pool(t.upstreams) == Pool(t'.upstreams)
    requires session in t.sticky <==> session in t'.sticky
    requires session in t.sticky ==> t.sticky[session] == t'.sticky[session]
    requires RoutesTo(hash, replicas, t, session, a) && RoutesTo(hash, replicas, t', session, b)
    ensures a == b
  {
    SamePool(t.upstreams, t'.upstreams);
    if !Pinned(t, session) && t.upstreams != [] {
      NearestUnique(hash, Pool(t.upstreams), replicas, hash(session), a, b);
    }
  }

  lemma SamePool(us: seq<string>, vs: seq<string>)
    requires Pool(us) == Pool(vs)
    ensures forall u :: u in us <==> u in vs
    ensures us == [] <==> vs == []
  {
    forall u ensures u in us <==> u in vs { assert u in us <==> u in Pool(us); }
    if us != [] { assert us[0] in vs; }
    if vs != [] { assert vs[0] in us; }
  }

  /** The answer is always a current upstream; only the empty router answers "". */
  lemma RouteIsMember(hash: Hash, replicas: nat, t: Table, session: string, a: string)
    requires RoutesTo(hash, replicas, t, session, a)
    ensures if t.upstreams == [] then a == "" else a in t.upstreams
  {
  }

  /** AddUpstream: a session changes upstream only by moving to the new one. */
  lemma AddMovesOnlyToNewcomer(hash: Hash, replicas: nat, t: Table, name: string, session: string, a: string, b: string)
    requires CollisionFree(hash, Pool(t.upstreams) + {name}, replicas)
    requires RoutesTo(hash, replicas, t, session, a) && RoutesTo(hash, replicas, Added(t, name), session, b)
    ensures b == a || b == name
  {
    var t' := Added(t, name);
    assert Pool(t'.upstreams) == Pool(t.upstreams) + {name};
    if !Pinned(t', session) {
      if t.upstreams == [] {
        assert Pool(t'.upstreams) == {name};
      } else {
        OnlyNewcomerTakes(hash, Pool(t.upstreams), name, replicas, hash(session), a, b);
      }
    }
  }

  /** SetUpstreams: whatever the new list, a session changes upstream only if it was on one that left
      or goes to one that joined. */
  lemma ReplacingMovesOnlyWhatItMust(hash: Hash, replicas: nat, t: Table, us: seq<string>, session: string, a: string, b: string)
    requires CollisionFree(hash, Pool(t.upstreams) + Pool(us), replicas)
    requires RoutesTo(hash, replicas, t, session, a)
    requires RoutesTo(hash, replicas, Table(us, WithoutPins(t.sticky, Pool(us))), session, b)
    ensures b == a || a !in us || b !in t.upstreams
  {
    var t' := Table(us, WithoutPins(t.sticky, Pool(us)));
    if !Pinned(t, session) && !Pinned(t', session) && t.upstreams != [] && us != [] {
      ChangeOfPool(hash, Pool(t.upstreams), Pool(us), replicas, hash(session), a, b);
    }
  }

  lemma PoolAfterRemove(us: seq<string>, i: nat)
    requires i < |us|
    ensures forall u :: u in us <==> u == us[i] || u in us[..i] + us[i + 1..]
  {
    assert us == us[..i] + [us[i]] + us[i + 1..];
  }

  /** RemoveUpstream: a session changes upstream only if it was on the removed one. */
  lemma RemoveMovesOnlyItsOwn(hash: Hash, replicas: nat, t: Table, name: string, session: string, a: string, b: string)
    requires CollisionFree(hash, Pool(t.upstreams), replicas)
    requires RoutesTo(hash, replicas, t, session, a) && RoutesTo(hash, replicas, Removed(t, name), session, b)
    ensures b == a || a == name
  {
    var t', i := Removed(t, name), Index(t.upstreams, name);
    if i < |t.upstreams| {
      PoolAfterRemove(t.upstreams, i);
      if a != name && !Pinned(t, session) {
        assert !Pinned(t', session);
        var rest := Pool(t'.upstreams);
        assert rest + {name} == Pool(t.upstreams);
        assert a in t'.upstreams;
        OnlyNewcomerTakes(hash, rest, name, replicas, hash(session), b, a);
      }
    } else if !Pinned(t, session) && t.upstreams != [] {
      NearestUnique(hash, Pool(t.upstreams), replicas, hash(session), a, b);
    }
  }

  lemma RestAfterRemove(us: seq<string>, i: nat)
    requires i < |us|
    ensures multiset(us[..i] + us[i + 1..]) == multiset(us) - multiset{us[i]}
  {
    assert us == us[..i] + [us[i]] + us[i + 1..];
  }

  /** RemoveUpstream takes out one occurrence of the name, the first, and keeps the order of the others.
      So the name is gone unless it was listed more than once. */
  lemma RemovedIsGone(t: Table, name: string)
    ensures var us, us' := t.upstreams, Removed(t, name).upstreams;
            && multiset(us') == multiset(us) - multiset{name}
            && (name in us' <==> multiset(us)[name] > 1)
            && (name in us ==> exists i :: 0 <= i < |us| && us[i] == name && name !in us[..i] && us' == us[..i] + us[i + 1..])
  {
    var us, us', i := t.upstreams, Removed(t, name).upstreams, Index(t.upstreams, name);
    if i < |us| { RestAfterRemove(us, i); }
    assert name in us' <==> name in multiset(us');
  }

  /** A removed upstream that was listed once is routed to by no session; an empty router answers "". */
  lemma RemovedIsNotRouted(hash: Hash, replicas: nat, t: Table, name: string, session: string, b: string)
    requires multiset(t.upstreams)[name] <= 1 && RoutesTo(hash, replicas, Removed(t, name), session, b)
    ensures if Removed(t, name).upstreams == [] then b == "" else b != name
  {
    RemovedIsGone(t, name);
    RouteIsMember(hash, replicas, Removed(t, name), session, b);
  }

  /** AddUpstream adds exactly the name, and once: adding it again changes nothing. */
  lemma AddedIsThere(t: Table, name: string)
    ensures Pool(Added(t, name).upstreams) == Pool(t.upstreams) + {name} && t.upstreams <= Added(t, name).upstreams
    ensures Added(Added(t, name), name) == Added(t, name) && Added(t, name).sticky == t.sticky
    ensures name !in t.upstreams ==> multiset(Added(t, name).upstreams)[name] == 1
  {
    if name !in t.upstreams { assert multiset(t.upstreams)[name] == 0; }
  }

  /** Adding an upstream and removing it again gives the table back, but for pins to that name; and
      removing one and adding it again revives no pin. */
  lemma AddAndRemove(t: Table, name: string)
    ensures name !in t.upstreams ==>
              Removed(Added(t, name), name) == Table(t.upstreams, map s | s in t.sticky && t.sticky[s] != name :: t.sticky[s])
    ensures forall s :: s in Added(Removed(t, name), name).sticky ==> Added(Removed(t, name), name).sticky[s] != name
  {
    if name !in t.upstreams {
      var us := t.upstreams + [name];
      assert us[..|t.upstreams|] == t.upstreams && us[|t.upstreams| + 1..] == [];
      FirstIndex(us, name, |t.upstreams|);
    }
  }

  /** `AffinityRouter`. */
  class AffinityRouter {
    const hash: Hash
    const replicas: nat
    var upstreams: seq<string>
    var sticky: map<string, string>

    function Contents(): Table
      reads this
    {
      Table(upstreams, sticky)
    }

    constructor (hash: Hash, upstreams: seq<string>, replicas: int)
      ensures this.hash == hash && this.replicas == if replicas > 0 then replicas else 100
      ensures Contents() == Table(upstreams, map[])
    {
      this.hash, this.replicas := hash, EffectiveReplicas(replicas);
      this.upstreams, sticky := upstreams, map[];
    }

    method Route(session: string) returns (upstream: string)
      requires replicas > 0
      ensures RoutesTo(hash, replicas, Contents(), session, upstream)
      ensures session in sticky && sticky[session] in upstreams ==> upstream == sticky[session]
      ensures !(session in sticky && sticky[session] in upstreams) && upstreams != [] ==>
                Nearest(hash, Pool(upstreams), replicas, hash(session), upstream)
    {
      if session in sticky {
        var override := sticky[session];
        var i := 0;
        while i < |upstreams|
          invariant i <= |upstreams| && override !in upstreams[..i]
        {
          if upstreams[i] == override { return override; }
          i := i + 1;
        }
        assert upstreams[..|upstreams|] == upstreams;
      }
      upstream := Locate(hash, session, upstreams, replicas);
    }

    method SetUpstreams(us: seq<string>)
      modifies this
      ensures Contents() == Table(us, WithoutPins(old(sticky), Pool(us)))
      ensures upstreams == us && forall s :: s in sticky <==> s in old(sticky) && old(sticky)[s] in us
      ensures forall s :: s in sticky ==> sticky[s] == old(sticky)[s]
    {
      upstreams := us;
      var valid := set u | u in us;
      sticky := map s | s in sticky && sticky[s] in valid :: sticky[s];
    }

    method AddUpstream(name: string)
      modifies this
      ensures Contents() == Added(old(Contents()), name)
      ensures upstreams == old(upstreams) + (if name in old(upstreams) then [] else [name]) && sticky == old(sticky)
    {
      var i := 0;
      while i < |upstreams|
        invariant i <= |upstreams| && name !in upstreams[..i] && Contents() == old(Contents())
      {
        if upstreams[i] == name { return; }
        i := i + 1;
      }
      assert upstreams[..|upstreams|] == upstreams;
      upstreams := upstreams + [name];
    }

    /** The loop of `RemoveUpstream`: it cuts out the first occurrence and stops. */
    method CutOut(name: string)
      modifies this`upstreams
      ensures upstreams == Removed(old(Contents()), name).upstreams
    {
      var i := 0;
      while i < |upstreams| && upstreams[i] != name
        invariant i <= |upstreams| && name !in upstreams[..i] && upstreams == old(upstreams)
      {
        i := i + 1;
      }
      FirstIndex(upstreams, name, i);
      if i < |upstreams| {
        upstreams := upstreams[..i] + upstreams[i + 1..];
      }
    }

    method RemoveUpstream(name: string)
      modifies this
      ensures Contents() == Removed(old(Contents()), name)
      ensures multiset(upstreams) == multiset(old(upstreams)) - multiset{name}
      ensures forall s :: s in sticky <==> s in old(sticky) && old(sticky)[s] != name
      ensures forall s :: s in sticky ==> sticky[s] == old(sticky)[s]
    {
      RemovedIsGone(Contents(), name);
      CutOut(name);
      sticky := map s | s in sticky && sticky[s] != name :: sticky[s];
    }

    method SetSticky(session: string, upstream: string)
      modifies this
      ensures Contents() == old(Contents()).(sticky := old(sticky)[session := upstream])
    {
      sticky := sticky[session := upstream];
    }

    method RemoveSticky(session: string)
      modifies this
      ensures Contents() == old(Contents()).(sticky := old(sticky) - {session})
    {
      sticky := sticky - {session};
    }
  }

  lemma {:induction false} FirstIndex(us: seq<string>, name: string, i: nat)
    requires i <= |us| && name !in us[..i] && (i < |us| ==> us[i] == name)
    ensures i == Index(us, name)
  {
    if us != [] && i > 0 {
      assert us[..i][0] == us[0];
      assert us[..i] == [us[0]] + us[1..][..i - 1];
      FirstIndex(us[1..], name, i - 1);
    }
  }
}

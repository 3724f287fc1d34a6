/** Session-to-upstream mapping on a hash ring: `consistentHash` in `gateway/affinity.go`. The
    32-bit checksum is a parameter, so everything here holds for every hash function. */
module ConsistentHash {

  const RING_SIZE := 0x1_0000_0000

  type u32 = x: nat | x < RING_SIZE

  type Hash = string -> u32

  // ---- virtual-node keys ----

  function DigitChar(d: nat): char
    requires d < 10
  {
    ('0' as int + d) as char
  }

  /** Decimal digits, least significant first, the way the key loop appends them. */
  function Digits(n: nat): string {
    if n == 0 then "" else [DigitChar(n % 10)] + Digits(n / 10)
  }

  function ReplicaText(i: nat): string {
    if i < 10 then [DigitChar(i)] else Digits(i)
  }

  function NodeKey(upstream: string, i: nat): string {
    upstream + ":" + ReplicaText(i)
  }

  method VirtualKey(upstream: string, i: nat) returns (key: string)
    ensures key == NodeKey(upstream, i)
  {
    if i < 10 {
      return upstream + ":" + [DigitChar(i)];
    }
    key := upstream + ":";
    var n := i;
    while n > 0
      invariant key + Digits(n) == upstream + ":" + Digits(i)
    {
      assert key + Digits(n) == (key + [DigitChar(n % 10)]) + Digits(n / 10);
      key := key + [DigitChar(n % 10)];
      n := n / 10;
    }
    assert key + Digits(0) == key;
  }

  /** The number that decimal digits spell, least significant first. */
  function Spelled(s: string): int {
    if s == "" then 0 else (s[0] as int - '0' as int) + 10 * Spelled(s[1..])
  }

  lemma {:induction false} DigitsSpell(n: nat)
    ensures Spelled(Digits(n)) == n && forall k :: 0 <= k < |Digits(n)| ==> '0' <= Digits(n)[k] <= '9'
    ensures n > 0 ==> Digits(n) != "" && Digits(n)[|Digits(n)| - 1] != '0'
  {
    if n > 0 {
      DigitsSpell(n / 10);
      assert Digits(n)[1..] == Digits(n / 10);
    }
  }

  /** A node key is the upstream, a colon and the replica number in decimal, written backwards and
      without superfluous zeros. */
  lemma NodeKeySpells(upstream: string, i: nat)
    ensures upstream + ":" <= NodeKey(upstream, i)
    ensures var text := NodeKey(upstream, i)[|upstream| + 1..];
            && Spelled(text) == i && text != "" && (|text| > 1 ==> text[|text| - 1] != '0')
            && forall k :: 0 <= k < |text| ==> '0' <= text[k] <= '9'
  {
    DigitsSpell(i);
    assert NodeKey(upstream, i)[|upstream| + 1..] == ReplicaText(i);
    if i < 10 { assert [DigitChar(i)][1..] == ""; }
  }

  lemma {:induction false} DigitsHaveNoColon(n: nat)
    ensures ':' !in Digits(n)
  {
    if n > 0 { DigitsHaveNoColon(n / 10); }
  }

  lemma {:induction false} DigitsInjective(m: nat, n: nat)
    requires Digits(m) == Digits(n)
    ensures m == n
  {
    if m > 0 && n > 0 {
      assert Digits(m)[0] == Digits(n)[0];
      assert Digits(m)[1..] == Digits(m / 10) && Digits(n)[1..] == Digits(n / 10);
      DigitsInjective(m / 10, n / 10);
    }
  }

  lemma TwoDigits(n: nat)
    requires n >= 10
    ensures |Digits(n)| >= 2
  {
    assert |Digits(n / 10)| >= 1;
  }

  lemma ReplicaTextInjective(i: nat, j: nat)
    requires ReplicaText(i) == ReplicaText(j)
    ensures i == j
  {
    if i < 10 && j < 10 {
      assert DigitChar(i) == ReplicaText(i)[0] == ReplicaText(j)[0] == DigitChar(j);
    } else if i >= 10 && j >= 10 {
      DigitsInjective(i, j);
    } else {
      TwoDigits(if i < 10 then j else i);
    }
  }

  lemma ShorterTailPutsColonInLonger(u: string, s: string, v: string, t: string)
    requires u + ":" + s == v + ":" + t && |s| < |t|
    ensures ':' in t
  {
    var a, b := u + ":" + s, v + ":" + t;
    assert ':' == a[|u|] == b[|u|] == t[|u| - |v| - 1];
  }

  /** In `u + ":" + s` with a colon-free `s` the last colon is the separator. */
  lemma SplitAtLastColon(u: string, s: string, v: string, t: string)
    requires ':' !in s && ':' !in t && u + ":" + s == v + ":" + t
    ensures u == v && s == t
  {
    if |s| < |t| {
      ShorterTailPutsColonInLonger(u, s, v, t);
    } else if |t| < |s| {
      ShorterTailPutsColonInLonger(v, t, u, s);
    } else {
      var a, b := u + ":" + s, v + ":" + t;
      assert u == a[..|u|] == b[..|v|] == v;
      assert s == a[|u| + 1..] == b[|v| + 1..] == t;
    }
  }

  /** No two virtual nodes share a key. */
  lemma NodeKeyInjective(u: string, i: nat, v: string, j: nat)
    requires NodeKey(u, i) == NodeKey(v, j)
    ensures u == v && i == j
  {
    DigitsHaveNoColon(i);
    DigitsHaveNoColon(j);
    SplitAtLastColon(u, ReplicaText(i), v, ReplicaText(j));
    ReplicaTextInjective(i, j);
  }

  // ---- the reference definition: nearest clockwise node ----

  /** How far clockwise from `h` the point `x` lies. */
  function Distance(h: u32, x: u32): nat {
    if x >= h then x - h else x + RING_SIZE - h
  }

  /** Upstream `u` owns the virtual node of replica `i`, and no virtual node is closer to `h`. */
  ghost predicate NearestAt(hash: Hash, pool: set<string>, replicas: nat, h: u32, u: string, i: nat) {
    && u in pool && i < replicas
    && forall v: string, j: nat :: v in pool && j < replicas ==>
         Distance(h, hash(NodeKey(u, i))) <= Distance(h, hash(NodeKey(v, j)))
  }

  ghost predicate Nearest(hash: Hash, pool: set<string>, replicas: nat, h: u32, u: string) {
    exists i: nat :: NearestAt(hash, pool, replicas, h, u, i)
  }

  /** Nodes of different upstreams never fall on the same point of the ring. */
  ghost predicate CollisionFree(hash: Hash, pool: set<string>, replicas: nat) {
    forall u: string, v: string, i: nat, j: nat ::
      u in pool && v in pool && u != v && i < replicas && j < replicas ==>
        hash(NodeKey(u, i)) != hash(NodeKey(v, j))
  }

  lemma NearestUnique(hash: Hash, pool: set<string>, replicas: nat, h: u32, u: string, v: string)
    requires CollisionFree(hash, pool, replicas)
    requires Nearest(hash, pool, replicas, h, u) && Nearest(hash, pool, replicas, h, v)
    ensures u == v
  {
    var i: nat :| NearestAt(hash, pool, replicas, h, u, i);
    var j: nat :| NearestAt(hash, pool, replicas, h, v, j);
    assert Distance(h, hash(NodeKey(u, i))) == Distance(h, hash(NodeKey(v, j)));
  }

  /** Minimal disruption: enlarging the pool by one upstream either leaves the nearest upstream of a
      point as it is or hands the point to the newcomer. Read backwards, taking an upstream away
      only moves the points that were on it. */
  lemma OnlyNewcomerTakes(hash: Hash, pool: set<string>, x: string, replicas: nat, h: u32, before: string, after: string)
    requires CollisionFree(hash, pool + {x}, replicas)
    requires Nearest(hash, pool, replicas, h, before) && Nearest(hash, pool + {x}, replicas, h, after)
    ensures after == before || after == x
  {
    if after != x {
      var i: nat :| NearestAt(hash, pool + {x}, replicas, h, after, i);
      assert NearestAt(hash, pool, replicas, h, after, i);
      NearestUnique(hash, pool, replicas, h, before, after);
    }
  }

  /** Between any two pools, a point whose nearest upstream changes was on one that is gone or goes to
      one that is new. */
  lemma ChangeOfPool(hash: Hash, pool: set<string>, pool': set<string>, replicas: nat, h: u32, before: string, after: string)
    requires CollisionFree(hash, pool + pool', replicas)
    requires Nearest(hash, pool, replicas, h, before) && Nearest(hash, pool', replicas, h, after)
    ensures after == before || before !in pool' || after !in pool
  {
    if before in pool' && after in pool {
      var i: nat :| NearestAt(hash, pool, replicas, h, before, i);
      var j: nat :| NearestAt(hash, pool', replicas, h, after, j);
      assert Distance(h, hash(NodeKey(before, i))) <= Distance(h, hash(NodeKey(after, j)));
      assert Distance(h, hash(NodeKey(after, j))) <= Distance(h, hash(NodeKey(before, i)));
    }
  }

  // ---- the ring algorithm ----

  function Pool(upstreams: seq<string>): set<string> {
    set u | u in upstreams
  }

  datatype Node = Node(hash: u32, upstream: string)

  ghost predicate Sorted(ring: seq<Node>) {
    forall i, j :: 0 <= i < j < |ring| ==> ring[i].hash <= ring[j].hash
  }

  ghost predicate IsVirtualNode(hash: Hash, upstreams: seq<string>, replicas: nat, nd: Node) {
    nd.upstream in upstreams && exists i: nat :: i < replicas && nd.hash == hash(NodeKey(nd.upstream, i))
  }

  /** The ring holds the virtual nodes of the given upstreams and nothing else. */
  ghost predicate Covers(hash: Hash, upstreams: seq<string>, replicas: nat, ring: seq<Node>) {
    && (forall nd :: nd in ring ==> IsVirtualNode(hash, upstreams, replicas, nd))
    && (forall u, i: nat :: u in upstreams && i < replicas ==> Node(hash(NodeKey(u, i)), u) in ring)
  }

  method AppendReplicas(hash: Hash, u: string, replicas: nat, ring: seq<Node>) returns (r: seq<Node>)
    ensures |r| == |ring| + replicas && r[..|ring|] == ring
    ensures forall i: nat :: i < replicas ==> r[|ring| + i] == Node(hash(NodeKey(u, i)), u)
  {
    r := ring;
    for i := 0 to replicas
      invariant |r| == |ring| + i && r[..|ring|] == ring
      invariant forall k: nat :: k < i ==> r[|ring| + k] == Node(hash(NodeKey(u, k)), u)
    {
      var key := VirtualKey(u, i);
      r := r + [Node(hash(key), u)];
    }
  }

  lemma ExtendCover(hash: Hash, us: seq<string>, u: string, replicas: nat, ring: seq<Node>, r: seq<Node>)
    requires Covers(hash, us, replicas, ring)
    requires |r| == |ring| + replicas && r[..|ring|] == ring
    requires forall i: nat :: i < replicas ==> r[|ring| + i] == Node(hash(NodeKey(u, i)), u)
    ensures Covers(hash, us + [u], replicas, r)
  {
    forall nd | nd in r ensures IsVirtualNode(hash, us + [u], replicas, nd) {
      var k :| 0 <= k < |r| && r[k] == nd;
      if k < |ring| {
        assert nd == r[..|ring|][k] && IsVirtualNode(hash, us, replicas, nd);
      } else {
        var i: nat := k - |ring|;
        assert nd == r[|ring| + i] == Node(hash(NodeKey(u, i)), u);
      }
    }
    forall v, i: nat | v in us + [u] && i < replicas ensures Node(hash(NodeKey(v, i)), v) in r {
      if v in us {
        assert Node(hash(NodeKey(v, i)), v) in r[..|ring|];
      } else {
        assert r[|ring| + i] == Node(hash(NodeKey(v, i)), v);
      }
    }
  }

  method BuildRing(hash: Hash, upstreams: seq<string>, replicas: nat) returns (ring: seq<Node>)
    ensures Covers(hash, upstreams, replicas, ring)
  {
    ring := [];
    for k := 0 to |upstreams|
      invariant Covers(hash, upstreams[..k], replicas, ring)
    {
      var next := AppendReplicas(hash, upstreams[k], replicas, ring);
      ExtendCover(hash, upstreams[..k], upstreams[k], replicas, ring, next);
      assert upstreams[..k + 1] == upstreams[..k] + [upstreams[k]];
      ring := next;
    }
    assert upstreams[..|upstreams|] == upstreams;
  }

  /** Where an element belongs in a sorted ring. */
  method InsertionPoint(ring: seq<Node>, nd: Node) returns (p: nat)
    requires Sorted(ring)
    ensures p <= |ring|
    ensures forall k :: 0 <= k < p ==> ring[k].hash <= nd.hash
    ensures forall k :: p <= k < |ring| ==> nd.hash < ring[k].hash
  {
    p := |ring|;
    while p > 0 && nd.hash < ring[p - 1].hash
      invariant p <= |ring| && forall k :: p <= k < |ring| ==> nd.hash < ring[k].hash
    {
      p := p - 1;
    }
  }

  lemma InsertedInOrder(ring: seq<Node>, nd: Node, p: nat)
    requires Sorted(ring) && p <= |ring|
    requires forall k :: 0 <= k < p ==> ring[k].hash <= nd.hash
    requires forall k :: p <= k < |ring| ==> nd.hash < ring[k].hash
    ensures var r := ring[..p] + [nd] + ring[p..]; Sorted(r) && multiset(r) == multiset(ring) + multiset{nd}
  {
    var r := ring[..p] + [nd] + ring[p..];
    forall i, j | 0 <= i < j < |r| ensures r[i].hash <= r[j].hash {
      if i > p { assert r[i] == ring[i - 1] && r[j] == ring[j - 1]; }
      else if j < p { assert r[i] == ring[i] && r[j] == ring[j]; }
    }
    assert ring == ring[..p] + ring[p..];
  }

  /** Stands for `sort.Slice`: some permutation of the ring in hash order. Nothing below depends on
      how equal hashes are arranged. */
  method SortRing(ring: seq<Node>) returns (r: seq<Node>)
    ensures Sorted(r) && multiset(r) == multiset(ring)
  {
    r := [];
    for k := 0 to |ring|
      invariant Sorted(r) && multiset(r) == multiset(ring[..k])
    {
      var p := InsertionPoint(r, ring[k]);
      InsertedInOrder(r, ring[k], p);
      r := r[..p] + [ring[k]] + r[p..];
      assert ring[..k + 1] == ring[..k] + [ring[k]];
    }
    assert ring[..|ring|] == ring;
  }

  /** `sort.Search` for the first node at or after `h`. */
  method FirstAtOrAfter(ring: seq<Node>, h: u32) returns (i: nat)
    requires Sorted(ring)
    ensures i <= |ring|
    ensures forall k :: 0 <= k < i ==> ring[k].hash < h
    ensures forall k :: i <= k < |ring| ==> ring[k].hash >= h
  {
    i := 0;
    var j := |ring|;
    while i < j
      invariant i <= j <= |ring|
      invariant forall k :: 0 <= k < i ==> ring[k].hash < h
      invariant forall k :: j <= k < |ring| ==> ring[k].hash >= h
    {
      var mid := (i + j) / 2;
      if ring[mid].hash < h { i := mid + 1; } else { j := mid; }
    }
  }

  /** The node after the cut, or the first node when the search ran off the end, is clockwise
      nearest. */
  lemma CutIsNearest(ring: seq<Node>, h: u32, i: nat, pick: nat)
    requires Sorted(ring) && i <= |ring| && ring != [] && pick == (if i == |ring| then 0 else i)
    requires forall k :: 0 <= k < i ==> ring[k].hash < h
    requires forall k :: i <= k < |ring| ==> ring[k].hash >= h
    ensures forall nd :: nd in ring ==> Distance(h, ring[pick].hash) <= Distance(h, nd.hash)
  {
  }

  lemma PickIsNearest(hash: Hash, upstreams: seq<string>, replicas: nat, ring: seq<Node>, h: u32, pick: nat)
    requires Covers(hash, upstreams, replicas, ring) && pick < |ring|
    requires forall nd :: nd in ring ==> Distance(h, ring[pick].hash) <= Distance(h, nd.hash)
    ensures Nearest(hash, Pool(upstreams), replicas, h, ring[pick].upstream)
  {
    var nd := ring[pick];
    assert IsVirtualNode(hash, upstreams, replicas, nd);
    var i: nat :| i < replicas && nd.hash == hash(NodeKey(nd.upstream, i));
    forall v: string, j: nat | v in upstreams && j < replicas
      ensures Distance(h, hash(NodeKey(nd.upstream, i))) <= Distance(h, hash(NodeKey(v, j)))
    {
      assert Node(hash(NodeKey(v, j)), v) in ring;
    }
    assert NearestAt(hash, Pool(upstreams), replicas, h, nd.upstream, i);
  }

  /** A lone upstream is nearest to every point, so the shortcut agrees with the ring. */
  lemma LoneUpstreamIsNearest(hash: Hash, u: string, replicas: nat, h: u32)
    requires replicas > 0
    ensures Nearest(hash, {u}, replicas, h, u)
  {
    var best: nat := 0;
    for j := 1 to replicas
      invariant best < replicas
      invariant forall k: nat :: k < j ==> Distance(h, hash(NodeKey(u, best))) <= Distance(h, hash(NodeKey(u, k)))
    {
      if Distance(h, hash(NodeKey(u, j))) < Distance(h, hash(NodeKey(u, best))) { best := j; }
    }
    assert NearestAt(hash, {u}, replicas, h, u, best);
  }

  function EffectiveReplicas(replicas: int): (r: nat)
    ensures r > 0
  {
    if replicas <= 0 then 100 else replicas
  }

  /** `consistentHash`: the answer is the clockwise nearest upstream of the session's point. */
  method Locate(hash: Hash, session: string, upstreams: seq<string>, replicas: int) returns (upstream: string)
    ensures upstreams == [] ==> upstream == ""
    ensures upstreams != [] ==>
              Nearest(hash, Pool(upstreams), if replicas > 0 then replicas else 100, hash(session), upstream)
  {
    if |upstreams| == 0 { return ""; }
    var n := EffectiveReplicas(replicas);
    if |upstreams| == 1 {
      LoneUpstreamIsNearest(hash, upstreams[0], n, hash(session));
      assert Pool(upstreams) == {upstreams[0]};
      return upstreams[0];
    }
    var built := BuildRing(hash, upstreams, n);
    var ring := SortRing(built);
    SamePermutation(built, ring);
    var h := hash(session);
    var cut := FirstAtOrAfter(ring, h);
    assert Node(hash(NodeKey(upstreams[0], 0)), upstreams[0]) in ring;
    var pick := if cut == |ring| then 0 else cut;
    CutIsNearest(ring, h, cut, pick);
    PickIsNearest(hash, upstreams, n, ring, h, pick);
    return ring[pick].upstream;
  }

  lemma SamePermutation(a: seq<Node>, b: seq<Node>)
    requires multiset(a) == multiset(b)
    ensures forall nd :: nd in a <==> nd in b
  {
    forall nd ensures nd in a <==> nd in b {
      assert nd in a <==> nd in multiset(a);
    }
  }
}

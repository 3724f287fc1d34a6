/** Gateway federation: catalog discovery, diffing and routing (`gateway/federation.go`). */
module Federation {
  import opened Prelude

  // ---- names ----

  function TrimPrefix(s: string, prefix: string): string {
    if prefix <= s then s[|prefix|..] else s
  }

  function UpToSlash(s: string): string {
    if s == [] || s[0] == '/' then [] else [s[0]] + UpToSlash(s[1..])
  }

  predicate NameChar(c: char) {
    'a' <= c <= 'z' || 'A' <= c <= 'Z' || '0' <= c <= '9' || c == '_'
  }

  /** `peerNamespace`: host and port of the endpoint with every other character turned into '_'. */
  function PeerNamespace(endpoint: string): (ns: string)
    ensures forall i :: 0 <= i < |ns| ==> NameChar(ns[i])
  {
    var host := UpToSlash(TrimPrefix(TrimPrefix(endpoint, "https://"), "http://"));
    seq(|host|, i requires 0 <= i < |host| => if NameChar(host[i]) then host[i] else '_')
  }

  predicate IsPathOrNothing(rest: string) { rest == "" || rest[0] == '/' }

  lemma {:induction false} HostIsCutOut(host: string, rest: string)
    requires '/' !in host && IsPathOrNothing(rest)
    ensures UpToSlash(host + rest) == host
  {
    if host == "" {
      assert host + rest == rest;
    } else {
      HostIsCutOut(host[1..], rest);
      assert (host + rest)[1..] == host[1..] + rest && host[0] in host;
    }
  }

  /** What follows the protocol is not taken for another one. */
  lemma HostIsNotTrimmed(host: string, rest: string)
    requires '/' !in host && IsPathOrNothing(rest) && host != "http:"
    ensures TrimPrefix(host + rest, "http://") == host + rest
  {
    if |host| > 5 {
      assert (host + rest)[5] == host[5] && host[5] in host && "http://"[5] == '/';
    } else if |host| == 5 {
      var url := host + rest;
      assert url[0] == host[0] && url[1] == host[1] && url[2] == host[2] && url[3] == host[3] && url[4] == host[4];
      assert !(host[0] == 'h' && host[1] == 't' && host[2] == 't' && host[3] == 'p' && host[4] == ':');
    } else if rest != "" {
      assert (host + rest)[|host|] == '/' && "http://"[|host|] != '/';
    }
  }

  lemma ProtocolIsTrimmed(scheme: string, tail: string)
    requires scheme == "https://" || scheme == "http://"
    requires scheme == "https://" ==> TrimPrefix(tail, "http://") == tail
    ensures TrimPrefix(TrimPrefix(scheme + tail, "https://"), "http://") == tail
  {
    assert (scheme + tail)[|scheme|..] == tail;
    if scheme == "http://" { assert (scheme + tail)[4] == ':' && "https://"[4] == 's'; }
  }

  /** The namespace of "https://" or "http://", a host, and nothing or a path: one character for each of
      the host, the same if it is a letter or digit, and '_' otherwise. */
  lemma NamespaceOfUrl(scheme: string, host: string, rest: string)
    requires scheme == "https://" || scheme == "http://"
    requires '/' !in host && IsPathOrNothing(rest) && (scheme == "https://" ==> host != "http:")
    ensures var ns := PeerNamespace(scheme + (host + rest));
            && |ns| == |host|
            && forall i :: 0 <= i < |host| ==>
                 ns[i] == if 'a' <= host[i] <= 'z' || 'A' <= host[i] <= 'Z' || '0' <= host[i] <= '9' then host[i] else '_'
  {
    if scheme == "https://" { HostIsNotTrimmed(host, rest); }
    ProtocolIsTrimmed(scheme, host + rest);
    HostIsCutOut(host, rest);
  }

  /** `federatedToolName`. */
  function FederatedName(namespaced: bool, endpoint: string, tool: string): string {
    if namespaced then PeerNamespace(endpoint) + "/" + tool else tool
  }

  lemma ShorterHeadPutsSlashInLonger(a: string, x: string, b: string, y: string)
    requires a + "/" + x == b + "/" + y && |a| < |b|
    ensures '/' in b
  {
    assert '/' == (a + "/" + x)[|a|] == (b + "/" + y)[|a|] == b[|a|];
  }

  /** A namespace has no slash, so the first slash of a namespaced name splits it uniquely. */
  lemma NamespacedNameSplits(e: string, x: string, f: string, y: string)
    requires FederatedName(true, e, x) == FederatedName(true, f, y)
    ensures PeerNamespace(e) == PeerNamespace(f) && x == y
  {
    var a, b := PeerNamespace(e), PeerNamespace(f);
    if |a| < |b| {
      ShorterHeadPutsSlashInLonger(a, x, b, y);
    } else if |b| < |a| {
      ShorterHeadPutsSlashInLonger(b, y, a, x);
    } else {
      assert a == (a + "/" + x)[..|a|] == (b + "/" + y)[..|b|] == b;
      assert x == (a + "/" + x)[|a| + 1..] == (b + "/" + y)[|b| + 1..] == y;
    }
  }

  /** Within one peer the federated name determines the tool, in either mode. */
  lemma NameDeterminesTool(namespaced: bool, e: string, x: string, y: string)
    requires FederatedName(namespaced, e, x) == FederatedName(namespaced, e, y)
    ensures x == y
  {
    if namespaced { NamespacedNameSplits(e, x, e, y); }
  }

  // ---- state and discovery ----

  datatype Peer = Peer(tools: seq<string>, connected: bool, healthy: bool)

  /** What a registry entry does when called: something local, or forwarding to a peer under the
      tool's original name. */
  datatype Handler = Local(id: nat) | Proxy(endpoint: string, tool: string)

  datatype State = State(peers: map<string, Peer>, registry: map<string, Handler>)

  /** One `discoverPeer` call: whether a connection attempt would succeed, and what listing gives. */
  datatype Discovery = Discovery(endpoint: string, connects: bool, listing: Option<seq<string>>)

  function PeerOf(s: State, endpoint: string): Peer {
    if endpoint in s.peers then s.peers[endpoint] else Peer([], false, false)
  }

  ghost function Names(namespaced: bool, endpoint: string, tools: seq<string>): set<string> {
    set t | t in tools :: FederatedName(namespaced, endpoint, t)
  }

  predicate Succeeds(s: State, d: Discovery) {
    (PeerOf(s, d.endpoint).connected || d.connects) && d.listing.Some?
  }

  /** The tool of a listing behind a federated name. */
  ghost function ToolBehind(namespaced: bool, endpoint: string, tools: seq<string>, name: string): (t: string)
    requires name in Names(namespaced, endpoint, tools)
    ensures t in tools && FederatedName(namespaced, endpoint, t) == name
  {
    var t :| t in tools && FederatedName(namespaced, endpoint, t) == name;
    t
  }

  /** The registry after diffing an old against a new listing of one peer. */
  ghost function Diffed(namespaced: bool, registry: map<string, Handler>, endpoint: string, before: seq<string>, after: seq<string>): map<string, Handler> {
    var known := Names(namespaced, endpoint, before);
    Extended(namespaced, registry - (known - Names(namespaced, endpoint, after)), endpoint, known, after)
  }

  /** A registry with a forwarding entry for every listed name that was not known before. */
  ghost function Extended(namespaced: bool, registry: map<string, Handler>, endpoint: string, known: set<string>, tools: seq<string>): map<string, Handler> {
    var come := Names(namespaced, endpoint, tools) - known;
    map n | n in registry.Keys + come ::
      if n in come then Proxy(endpoint, ToolBehind(namespaced, endpoint, tools, n)) else registry[n]
  }

  lemma NamesAppend(namespaced: bool, endpoint: string, tools: seq<string>, t: string)
    ensures Names(namespaced, endpoint, tools + [t]) ==
            Names(namespaced, endpoint, tools) + {FederatedName(namespaced, endpoint, t)}
  {
  }

  lemma ToolBehindStays(namespaced: bool, endpoint: string, tools: seq<string>, t: string, n: string)
    requires n in Names(namespaced, endpoint, tools + [t])
    ensures var u := ToolBehind(namespaced, endpoint, tools + [t], n);
            && (n == FederatedName(namespaced, endpoint, t) ==> u == t)
            && (n in Names(namespaced, endpoint, tools) ==> u == ToolBehind(namespaced, endpoint, tools, n))
  {
    var u := ToolBehind(namespaced, endpoint, tools + [t], n);
    if n == FederatedName(namespaced, endpoint, t) { NameDeterminesTool(namespaced, endpoint, u, t); }
    if n in Names(namespaced, endpoint, tools) {
      NameDeterminesTool(namespaced, endpoint, u, ToolBehind(namespaced, endpoint, tools, n));
    }
  }

  lemma ExtendByOne(namespaced: bool, registry: map<string, Handler>, endpoint: string, known: set<string>, tools: seq<string>, t: string)
    ensures var r, name := Extended(namespaced, registry, endpoint, known, tools), FederatedName(namespaced, endpoint, t);
            Extended(namespaced, registry, endpoint, known, tools + [t]) ==
            if name in known then r else r[name := Proxy(endpoint, t)]
  {
    var r, name := Extended(namespaced, registry, endpoint, known, tools), FederatedName(namespaced, endpoint, t);
    var r1 := Extended(namespaced, registry, endpoint, known, tools + [t]);
    var r2 := if name in known then r else r[name := Proxy(endpoint, t)];
    NamesAppend(namespaced, endpoint, tools, t);
    assert r1.Keys == r2.Keys;
    forall n | n in r1 ensures r1[n] == r2[n] {
      if n in Names(namespaced, endpoint, tools + [t]) { ToolBehindStays(namespaced, endpoint, tools, t, n); }
    }
  }

  lemma ExtendPrefix(namespaced: bool, registry: map<string, Handler>, endpoint: string, known: set<string>, tools: seq<string>, i: nat)
    requires i < |tools|
    ensures var r, name := Extended(namespaced, registry, endpoint, known, tools[..i]), FederatedName(namespaced, endpoint, tools[i]);
            Extended(namespaced, registry, endpoint, known, tools[..i + 1]) ==
            if name in known then r else r[name := Proxy(endpoint, tools[i])]
  {
    ExtendByOne(namespaced, registry, endpoint, known, tools[..i], tools[i]);
    assert tools[..i + 1] == tools[..i] + [tools[i]];
  }

  ghost function Discovered(namespaced: bool, s: State, d: Discovery): State {
    var p := PeerOf(s, d.endpoint);
    if !Succeeds(s, d) then
      s.(peers := s.peers[d.endpoint := Peer(p.tools, false, false)])
    else
      State(s.peers[d.endpoint := Peer(d.listing.value, true, true)],
            Diffed(namespaced, s.registry, d.endpoint, p.tools, d.listing.value))
  }

  /** The state after a run of discoveries on a registry that held `local` entries before. */
  ghost function After(namespaced: bool, local: map<string, Handler>, ds: seq<Discovery>): State {
    if ds == [] then State(map[], local)
    else Discovered(namespaced, After(namespaced, local, ds[..|ds| - 1]), ds[|ds| - 1])
  }

  /** The listing of the last discovery of `endpoint` that reached the peer. */
  ghost function LastCatalog(namespaced: bool, local: map<string, Handler>, ds: seq<Discovery>, endpoint: string): seq<string> {
    if ds == [] then []
    else
      var n := |ds| - 1;
      if ds[n].endpoint == endpoint && Succeeds(After(namespaced, local, ds[..n]), ds[n]) then ds[n].listing.value
      else LastCatalog(namespaced, local, ds[..n], endpoint)
  }

  lemma {:induction false} PeerToolsAreLastCatalog(namespaced: bool, local: map<string, Handler>, ds: seq<Discovery>, endpoint: string)
    ensures PeerOf(After(namespaced, local, ds), endpoint).tools == LastCatalog(namespaced, local, ds, endpoint)
  {
    if ds != [] { PeerToolsAreLastCatalog(namespaced, local, ds[..|ds| - 1], endpoint); }
  }

  // ---- exactness of the registry ----

  /** Different endpoints never give two tools the same federated name. */
  ghost predicate Separate(namespaced: bool, endpoints: set<string>) {
    forall e, f, x, y ::
      e in endpoints && f in endpoints && e != f ==> FederatedName(namespaced, e, x) != FederatedName(namespaced, f, y)
  }

  ghost predicate DistinctNamespaces(endpoints: set<string>) {
    forall e, f :: e in endpoints && f in endpoints && e != f ==> PeerNamespace(e) != PeerNamespace(f)
  }

  /** Endpoints are separate in namespaced mode exactly when their namespaces differ, and in flat
      mode exactly when there are no two of them. */
  lemma SeparateWhen(endpoints: set<string>)
    ensures Separate(true, endpoints) <==> DistinctNamespaces(endpoints)
    ensures Separate(false, endpoints) <==> forall e, f :: e in endpoints && f in endpoints ==> e == f
  {
    if DistinctNamespaces(endpoints) {
      forall e, f, x, y | e in endpoints && f in endpoints && e != f
        ensures FederatedName(true, e, x) != FederatedName(true, f, y)
      {
        if FederatedName(true, e, x) == FederatedName(true, f, y) { NamespacedNameSplits(e, x, f, y); }
      }
    } else {
      var e, f :| e in endpoints && f in endpoints && e != f && PeerNamespace(e) == PeerNamespace(f);
      assert FederatedName(true, e, "") == FederatedName(true, f, "");
    }
    if e, f :| e in endpoints && f in endpoints && e != f {
      assert FederatedName(false, e, "") == FederatedName(false, f, "");
    }
  }

  /** Some peer's tool list accounts for the name. */
  ghost predicate Owns(namespaced: bool, s: State, e: string, t: string, name: string) {
    e in s.peers && t in s.peers[e].tools && FederatedName(namespaced, e, t) == name
  }

  /** The registry holds the local entries and one forwarding entry per peer tool, nothing else. */
  ghost predicate Exact(namespaced: bool, local: map<string, Handler>, s: State) {
    && (forall n :: n in local ==> n in s.registry && s.registry[n] == local[n])
    && (forall e, t :: e in s.peers && t in s.peers[e].tools ==>
          var n := FederatedName(namespaced, e, t); n in s.registry && s.registry[n] == Proxy(e, t))
    && (forall n :: n in s.registry && n !in local ==> exists e, t :: Owns(namespaced, s, e, t, n))
  }

  /** Tools that may be listed, each with its endpoint: different endpoints give their tools different
      names, and none of them is the name of a local entry. */
  ghost predicate Apart(namespaced: bool, local: map<string, Handler>, offers: iset<(string, string)>) {
    && (forall e, x, f, y :: (e, x) in offers && (f, y) in offers && e != f ==>
          FederatedName(namespaced, e, x) != FederatedName(namespaced, f, y))
    && (forall e, x :: (e, x) in offers ==> FederatedName(namespaced, e, x) !in local)
  }

  ghost predicate ListsWithin(offers: iset<(string, string)>, d: Discovery) {
    d.listing.Some? ==> forall t :: t in d.listing.value ==> (d.endpoint, t) in offers
  }

  ghost predicate Within(offers: iset<(string, string)>, ds: seq<Discovery>) {
    forall k :: 0 <= k < |ds| ==> ListsWithin(offers, ds[k])
  }

  ghost predicate HoldsWithin(offers: iset<(string, string)>, s: State) {
    forall e, t :: e in s.peers && t in s.peers[e].tools ==> (e, t) in offers
  }

  lemma DiffedEntry(namespaced: bool, registry: map<string, Handler>, e: string, before: seq<string>, after: seq<string>, t: string)
    requires t in after
    requires t in before ==> FederatedName(namespaced, e, t) in registry && registry[FederatedName(namespaced, e, t)] == Proxy(e, t)
    ensures var r, n := Diffed(namespaced, registry, e, before, after), FederatedName(namespaced, e, t);
            n in r && r[n] == Proxy(e, t)
  {
    var n := FederatedName(namespaced, e, t);
    assert n in Names(namespaced, e, after);
    if n in Names(namespaced, e, before) {
      var u :| u in before && FederatedName(namespaced, e, u) == n;
      NameDeterminesTool(namespaced, e, t, u);
    } else {
      NameDeterminesTool(namespaced, e, t, ToolBehind(namespaced, e, after, n));
    }
  }

  lemma DiscoveryKeepsWithin(namespaced: bool, offers: iset<(string, string)>, s: State, d: Discovery)
    requires HoldsWithin(offers, s) && ListsWithin(offers, d)
    ensures HoldsWithin(offers, Discovered(namespaced, s, d))
  {
  }

  /** A name of another peer, or of a local entry, is not touched by a discovery. */
  lemma DiffSparesOthers(namespaced: bool, registry: map<string, Handler>, e: string, before: seq<string>, after: seq<string>, n: string)
    requires n in registry && n !in Names(namespaced, e, before) && n !in Names(namespaced, e, after)
    ensures var r := Diffed(namespaced, registry, e, before, after); n in r && r[n] == registry[n]
  {
  }

  lemma DiscoverySparesLocals(namespaced: bool, local: map<string, Handler>, offers: iset<(string, string)>, s: State, d: Discovery, n: string)
    requires Apart(namespaced, local, offers) && HoldsWithin(offers, s) && ListsWithin(offers, d) && Succeeds(s, d)
    requires n in local && n in s.registry && s.registry[n] == local[n]
    ensures var s' := Discovered(namespaced, s, d); n in s'.registry && s'.registry[n] == local[n]
  {
    var p := PeerOf(s, d.endpoint);
    forall t | t in p.tools || t in d.listing.value ensures FederatedName(namespaced, d.endpoint, t) != n {
      assert (d.endpoint, t) in offers;
    }
    DiffSparesOthers(namespaced, s.registry, d.endpoint, p.tools, d.listing.value, n);
  }

  lemma DiscoverySparesPeers(namespaced: bool, local: map<string, Handler>, offers: iset<(string, string)>, s: State, d: Discovery, e: string, t: string)
    requires Apart(namespaced, local, offers) && HoldsWithin(offers, s) && ListsWithin(offers, d) && Succeeds(s, d)
    requires e in s.peers && t in s.peers[e].tools && e != d.endpoint
    requires var n := FederatedName(namespaced, e, t); n in s.registry && s.registry[n] == Proxy(e, t)
    ensures var s', n := Discovered(namespaced, s, d), FederatedName(namespaced, e, t);
            n in s'.registry && s'.registry[n] == Proxy(e, t)
  {
    var p, n := PeerOf(s, d.endpoint), FederatedName(namespaced, e, t);
    forall u | u in p.tools || u in d.listing.value ensures FederatedName(namespaced, d.endpoint, u) != n {
      assert (d.endpoint, u) in offers && (e, t) in offers;
    }
    DiffSparesOthers(namespaced, s.registry, d.endpoint, p.tools, d.listing.value, n);
  }

  lemma DiscoveryAddsNothingElse(namespaced: bool, local: map<string, Handler>, s: State, d: Discovery, n: string)
    requires Exact(namespaced, local, s) && Succeeds(s, d)
    requires n in Discovered(namespaced, s, d).registry && n !in local
    ensures exists e, t :: Owns(namespaced, Discovered(namespaced, s, d), e, t, n)
  {
    var s', after := Discovered(namespaced, s, d), d.listing.value;
    if n in Names(namespaced, d.endpoint, after) {
      assert Owns(namespaced, s', d.endpoint, ToolBehind(namespaced, d.endpoint, after, n), n);
    } else {
      assert n in s.registry;
      var e, t :| Owns(namespaced, s, e, t, n);
      assert Owns(namespaced, s', e, t, n);
    }
  }

  lemma FailureKeepsExact(namespaced: bool, local: map<string, Handler>, s: State, d: Discovery)
    requires Exact(namespaced, local, s) && !Succeeds(s, d)
    ensures Exact(namespaced, local, Discovered(namespaced, s, d))
  {
    var s' := Discovered(namespaced, s, d);
    forall n | n in s'.registry && n !in local ensures exists e, t :: Owns(namespaced, s', e, t, n) {
      var e, t :| Owns(namespaced, s, e, t, n);
      assert Owns(namespaced, s', e, t, n);
    }
  }

  lemma DiscoveryKeepsExact(namespaced: bool, local: map<string, Handler>, offers: iset<(string, string)>, s: State, d: Discovery)
    requires Apart(namespaced, local, offers) && HoldsWithin(offers, s) && ListsWithin(offers, d)
    requires Exact(namespaced, local, s)
    ensures Exact(namespaced, local, Discovered(namespaced, s, d))
  {
    if !Succeeds(s, d) {
      FailureKeepsExact(namespaced, local, s, d);
    } else {
      var s', p := Discovered(namespaced, s, d), PeerOf(s, d.endpoint);
      forall n | n in local ensures n in s'.registry && s'.registry[n] == local[n] {
        DiscoverySparesLocals(namespaced, local, offers, s, d, n);
      }
      forall e, t | e in s'.peers && t in s'.peers[e].tools
        ensures var n := FederatedName(namespaced, e, t); n in s'.registry && s'.registry[n] == Proxy(e, t)
      {
        if e == d.endpoint {
          DiffedEntry(namespaced, s.registry, e, p.tools, d.listing.value, t);
        } else {
          DiscoverySparesPeers(namespaced, local, offers, s, d, e, t);
        }
      }
      forall n | n in s'.registry && n !in local ensures exists e, t :: Owns(namespaced, s', e, t, n) {
        DiscoveryAddsNothingElse(namespaced, local, s, d, n);
      }
    }
  }

  ghost predicate Over(endpoints: set<string>, ds: seq<Discovery>) {
    forall k :: 0 <= k < |ds| ==> ds[k].endpoint in endpoints
  }

  lemma {:induction false} ExactAfterAnyRun(namespaced: bool, local: map<string, Handler>, offers: iset<(string, string)>, ds: seq<Discovery>)
    requires Apart(namespaced, local, offers) && Within(offers, ds)
    ensures HoldsWithin(offers, After(namespaced, local, ds))
    ensures Exact(namespaced, local, After(namespaced, local, ds))
  {
    if ds != [] {
      var n := |ds| - 1;
      ExactAfterAnyRun(namespaced, local, offers, ds[..n]);
      DiscoveryKeepsExact(namespaced, local, offers, After(namespaced, local, ds[..n]), ds[n]);
      DiscoveryKeepsWithin(namespaced, offers, After(namespaced, local, ds[..n]), ds[n]);
    }
  }

  /** Federation catalog: after any run of successful and failed discoveries whose listings do not
      clash, a name is registered exactly when it is local or some peer's last catalog has it; the
      owning peer and tool are then unique and the entry forwards to them. */
  lemma CatalogTheorem(namespaced: bool, local: map<string, Handler>, offers: iset<(string, string)>, ds: seq<Discovery>, name: string)
    requires Apart(namespaced, local, offers) && Within(offers, ds)
    ensures name in After(namespaced, local, ds).registry <==>
            name in local || exists e, t :: Listed(namespaced, local, ds, e, t, name)
    ensures forall e, t :: Listed(namespaced, local, ds, e, t, name) ==>
              name !in local && name in After(namespaced, local, ds).registry &&
              After(namespaced, local, ds).registry[name] == Proxy(e, t)
    ensures forall e, t, f, u ::
              Listed(namespaced, local, ds, e, t, name) && Listed(namespaced, local, ds, f, u, name) ==> e == f && t == u
  {
    var s := After(namespaced, local, ds);
    ExactAfterAnyRun(namespaced, local, offers, ds);
    forall e, t ensures Listed(namespaced, local, ds, e, t, name) <==> Owns(namespaced, s, e, t, name) {
      PeerToolsAreLastCatalog(namespaced, local, ds, e);
    }
    if name in s.registry && name !in local {
      var e, t :| Owns(namespaced, s, e, t, name);
      assert Listed(namespaced, local, ds, e, t, name);
    }
    forall e, t | Listed(namespaced, local, ds, e, t, name) ensures name !in local {
      assert Owns(namespaced, s, e, t, name) && (e, t) in offers;
    }
  }

  /** Tool `t` of the last catalog of peer `e` goes by this name. */
  ghost predicate Listed(namespaced: bool, local: map<string, Handler>, ds: seq<Discovery>, e: string, t: string, name: string) {
    t in LastCatalog(namespaced, local, ds, e) && FederatedName(namespaced, e, t) == name
  }

  /** Every name registered at the start is taken over by a peer that lists a tool of that name. */
  lemma LocalIsOverwritten(namespaced: bool, local: map<string, Handler>, e: string, t: string)
    requires FederatedName(namespaced, e, t) in local
    ensures var s := After(namespaced, local, [Discovery(e, true, Some([t]))]);
            FederatedName(namespaced, e, t) in s.registry && s.registry[FederatedName(namespaced, e, t)] == Proxy(e, t)
  {
    var d, name := Discovery(e, true, Some([t])), FederatedName(namespaced, e, t);
    assert [d][..0] == [];
    var s := After(namespaced, local, []);
    assert After(namespaced, local, [d]) == Discovered(namespaced, s, d);
    assert name !in Names(namespaced, e, []) && t in [t];
    DiffedEntry(namespaced, local, e, [], [t], t);
  }

  /** What calling a registered name leads to. */
  datatype Outcome = NotRegistered | HandledLocally | Unavailable(endpoint: string) | Forwarded(endpoint: string, tool: string)

  /** The handlers of `makePeerProxyHandler`: they refuse while the peer is not connected and healthy. */
  function Invoke(s: State, name: string): Outcome {
    if name !in s.registry then NotRegistered
    else match s.registry[name]
      case Local(_) => HandledLocally
      case Proxy(e, t) => if PeerOf(s, e).connected && PeerOf(s, e).healthy then Forwarded(e, t) else Unavailable(e)
  }

  /** Whether the most recent discovery of the endpoint, if any, reached the peer. */
  ghost predicate LastReached(namespaced: bool, local: map<string, Handler>, ds: seq<Discovery>, endpoint: string) {
    ds != [] &&
    var n := |ds| - 1;
    if ds[n].endpoint == endpoint then Succeeds(After(namespaced, local, ds[..n]), ds[n])
    else LastReached(namespaced, local, ds[..n], endpoint)
  }

  lemma {:induction false} HealthIsLastReached(namespaced: bool, local: map<string, Handler>, ds: seq<Discovery>, endpoint: string)
    ensures PeerOf(After(namespaced, local, ds), endpoint).healthy <==> LastReached(namespaced, local, ds, endpoint)
    ensures PeerOf(After(namespaced, local, ds), endpoint).connected <==> LastReached(namespaced, local, ds, endpoint)
  {
    if ds != [] { HealthIsLastReached(namespaced, local, ds[..|ds| - 1], endpoint); }
  }

  /** What one more discovery makes of it: a peer is reached if its listing comes and there was a
      connection or a new one is made; its listing then is the last catalog, and otherwise the one
      before stays. Other peers are as they were. */
  lemma ReachedExactlyWhen(namespaced: bool, local: map<string, Handler>, ds: seq<Discovery>, d: Discovery, e: string)
    ensures LastReached(namespaced, local, ds + [d], e) <==>
            if d.endpoint == e then d.listing.Some? && (d.connects || LastReached(namespaced, local, ds, e))
            else LastReached(namespaced, local, ds, e)
    ensures LastCatalog(namespaced, local, ds + [d], e) ==
            if d.endpoint == e && d.listing.Some? && (d.connects || LastReached(namespaced, local, ds, e)) then d.listing.value
            else LastCatalog(namespaced, local, ds, e)
  {
    assert (ds + [d])[..|ds|] == ds;
    HealthIsLastReached(namespaced, local, ds, e);
  }

  /** A local name is handled by its own handler, and a name that is neither local nor listed by nobody. */
  lemma InvokeElsewhere(namespaced: bool, local: map<string, Handler>, offers: iset<(string, string)>, ds: seq<Discovery>, name: string)
    requires Apart(namespaced, local, offers) && Within(offers, ds)
    ensures name in local ==>
              var s := After(namespaced, local, ds); name in s.registry && s.registry[name] == local[name]
    ensures name in local && local[name].Local? ==> Invoke(After(namespaced, local, ds), name) == HandledLocally
    ensures Invoke(After(namespaced, local, ds), name) == NotRegistered <==>
            name !in local && forall e, t :: !Listed(namespaced, local, ds, e, t, name)
  {
    ExactAfterAnyRun(namespaced, local, offers, ds);
    CatalogTheorem(namespaced, local, offers, ds, name);
  }

  /** Calling a listed name forwards to its owner under the original tool name exactly while the
      owner's most recent discovery succeeded, and is refused in that owner's name otherwise. */
  lemma InvokeReachesOwner(namespaced: bool, local: map<string, Handler>, offers: iset<(string, string)>, ds: seq<Discovery>, e: string, t: string, name: string)
    requires Apart(namespaced, local, offers) && Within(offers, ds) && Listed(namespaced, local, ds, e, t, name)
    ensures Invoke(After(namespaced, local, ds), name) ==
            if LastReached(namespaced, local, ds, e) then Forwarded(e, t) else Unavailable(e)
  {
    CatalogTheorem(namespaced, local, offers, ds, name);
    HealthIsLastReached(namespaced, local, ds, e);
  }

  /** A listed tool goes by its own name in flat mode, and by the peer's namespace, a slash and its own
      name in namespaced mode; under that name it is reached while its peer is. */
  lemma ListedToolIsCallable(namespaced: bool, local: map<string, Handler>, offers: iset<(string, string)>, ds: seq<Discovery>, e: string, t: string)
    requires Apart(namespaced, local, offers) && Within(offers, ds)
    requires t in LastCatalog(namespaced, local, ds, e) && LastReached(namespaced, local, ds, e)
    ensures Invoke(After(namespaced, local, ds), if namespaced then PeerNamespace(e) + "/" + t else t) == Forwarded(e, t)
  {
    InvokeReachesOwner(namespaced, local, offers, ds, e, t, if namespaced then PeerNamespace(e) + "/" + t else t);
  }

  /** Every tool of every last catalog is registered, whatever the run. */
  ghost predicate NeverLosesTools(namespaced: bool, endpoints: set<string>) {
    forall ds, e, t :: Over(endpoints, ds) && e in endpoints && t in LastCatalog(namespaced, map[], ds, e) ==>
      FederatedName(namespaced, e, t) in After(namespaced, map[], ds).registry
  }

  /** Two peers that share a name: when one of them stops listing its tool in its next round, the
      other's is gone. */
  lemma SharedNameIsLost(namespaced: bool, e: string, f: string, x: string, y: string)
    requires e != f && FederatedName(namespaced, e, x) == FederatedName(namespaced, f, y)
    ensures var ds := [Discovery(f, true, Some([y])), Discovery(e, true, Some([x])), Discovery(f, true, Some([]))];
            x in LastCatalog(namespaced, map[], ds, e) &&
            FederatedName(namespaced, e, x) !in After(namespaced, map[], ds).registry
  {
    var ds := [Discovery(f, true, Some([y])), Discovery(e, true, Some([x])), Discovery(f, true, Some([]))];
    var name := FederatedName(namespaced, e, x);
    assert ds[..2][..1] == ds[..1] && ds[..1][..0] == [];
    var s0 := After(namespaced, map[], []);
    var s1 := Discovered(namespaced, s0, ds[0]);
    var s2 := Discovered(namespaced, s1, ds[1]);
    assert After(namespaced, map[], ds[..1]) == s1 && After(namespaced, map[], ds[..2]) == s2;
    assert LastCatalog(namespaced, map[], ds[..2], e) == [x];
    assert name in Names(namespaced, f, [y]) && name !in Names(namespaced, f, []);
  }

  lemma SeparateKeepsTool(namespaced: bool, endpoints: set<string>, ds: seq<Discovery>, e: string, t: string)
    requires Separate(namespaced, endpoints) && Over(endpoints, ds) && t in LastCatalog(namespaced, map[], ds, e)
    ensures FederatedName(namespaced, e, t) in After(namespaced, map[], ds).registry
  {
    var offers := iset f, u | f in endpoints :: (f, u);
    assert Within(offers, ds);
    CatalogTheorem(namespaced, map[], offers, ds, FederatedName(namespaced, e, t));
    assert Listed(namespaced, map[], ds, e, t, FederatedName(namespaced, e, t));
  }

  /** Discovery never loses a listed tool exactly when the endpoints are separately named. */
  lemma NeverLosesToolsExactlyWhenSeparate(namespaced: bool, endpoints: set<string>)
    ensures NeverLosesTools(namespaced, endpoints) <==> Separate(namespaced, endpoints)
  {
    if Separate(namespaced, endpoints) {
      forall ds, e, t | Over(endpoints, ds) && e in endpoints && t in LastCatalog(namespaced, map[], ds, e)
        ensures FederatedName(namespaced, e, t) in After(namespaced, map[], ds).registry
      {
        SeparateKeepsTool(namespaced, endpoints, ds, e, t);
      }
    } else {
      var e, f, x, y :| e in endpoints && f in endpoints && e != f &&
                        FederatedName(namespaced, e, x) == FederatedName(namespaced, f, y);
      SharedNameIsLost(namespaced, e, f, x, y);
      assert Over(endpoints, [Discovery(f, true, Some([y])), Discovery(e, true, Some([x])), Discovery(f, true, Some([]))]);
    }
  }

  /** `Federation`. */
  class Gateway {
    const namespaced: bool
    var peers: map<string, Peer>
    var registry: map<string, Handler>

    ghost function Contents(): State
      reads this
    {
      State(peers, registry)
    }

    constructor (namespaced: bool, local: map<string, Handler>)
      ensures this.namespaced == namespaced && Contents() == After(namespaced, local, [])
    {
      this.namespaced := namespaced;
      peers, registry := map[], local;
    }

    method FederatedNames(endpoint: string, tools: seq<string>) returns (names: set<string>)
      ensures names == Names(namespaced, endpoint, tools)
    {
      names := {};
      for i := 0 to |tools|
        invariant names == Names(namespaced, endpoint, tools[..i])
      {
        names := names + {FederatedName(namespaced, endpoint, tools[i])};
        assert tools[..i + 1] == tools[..i] + [tools[i]];
      }
      assert tools[..|tools|] == tools;
    }

    /** `discoverPeer`. */
    method DiscoverPeer(d: Discovery)
      modifies this
      ensures Contents() == Discovered(namespaced, old(Contents()), d)
    {
      var p := if d.endpoint in peers then peers[d.endpoint] else Peer([], false, false);
      if !p.connected && !d.connects {
        peers := peers[d.endpoint := Peer(p.tools, false, false)];
        return;
      }
      if d.listing.None? {
        peers := peers[d.endpoint := Peer(p.tools, false, false)];
        return;
      }
      var tools := d.listing.value;
      var oldNames := FederatedNames(d.endpoint, p.tools);
      var newNames := FederatedNames(d.endpoint, tools);
      RemoveTools(oldNames - newNames);
      AddTools(d.endpoint, oldNames, tools);
      assert registry == Diffed(namespaced, old(registry), d.endpoint, p.tools, tools);
      peers := peers[d.endpoint := Peer(tools, true, true)];
    }

    method RemoveTools(names: set<string>)
      modifies this`registry
      ensures registry == old(registry) - names
    {
      var todo := names;
      while todo != {}
        invariant todo <= names && registry == old(registry) - (names - todo)
        decreases |todo|
      {
        var n :| n in todo;
        registry := registry - {n};
        todo := todo - {n};
      }
    }

    /** The names that only the new listing has get a forwarding entry each. */
    method AddTools(endpoint: string, known: set<string>, tools: seq<string>)
      modifies this`registry
      ensures registry == Extended(namespaced, old(registry), endpoint, known, tools)
    {
      for i := 0 to |tools|
        invariant registry == Extended(namespaced, old(registry), endpoint, known, tools[..i])
      {
        ExtendPrefix(namespaced, old(registry), endpoint, known, tools, i);
        var name := FederatedName(namespaced, endpoint, tools[i]);
        if name !in known {
          registry := registry[name := Proxy(endpoint, tools[i])];
        }
      }
      assert tools[..|tools|] == tools;
    }

    /** `RouteCall`: some peer that lists a tool under this name, if there is one. */
    method RouteCall(name: string) returns (owner: Option<string>)
      ensures owner.Some? ==> exists t :: Owns(namespaced, Contents(), owner.value, t, name)
      ensures owner.None? ==> forall e, t :: !Owns(namespaced, Contents(), e, t, name)
    {
      var todo := peers.Keys;
      while todo != {}
        invariant todo <= peers.Keys
        invariant forall e, t :: e !in todo ==> !Owns(namespaced, Contents(), e, t, name)
        decreases |todo|
      {
        var e :| e in todo;
        var tools := peers[e].tools;
        for i := 0 to |tools|
          invariant forall k :: 0 <= k < i ==> FederatedName(namespaced, e, tools[k]) != name
        {
          if FederatedName(namespaced, e, tools[i]) == name {
            assert Owns(namespaced, Contents(), e, tools[i], name);
            return Some(e);
          }
        }
        todo := todo - {e};
      }
      return None;
    }
  }
}

/** DPoP replay protection: `jtiCache` (`auth/dpop_cache.go`) behind the time window of
    `ValidateProof` (`auth/dpop.go`), after sections 4.3 and 11.1 of RFC 9449. Times are integers on
    one clock; a call reads it once for the window and once, not earlier, inside the cache. */
module ReplayCache {

  datatype Config = Config(maxAge: int, maxSkew: int, maxSize: nat) {
    /** How long the cache keeps an identifier. */
    function Ttl(): int { maxAge + maxSkew }
  }

  datatype Cache = Cache(entries: map<string, int>, checks: nat)

  /** The entries that `cleanup` keeps. */
  function Live(entries: map<string, int>, now: int, ttl: int): map<string, int> {
    map j | j in entries && now - entries[j] <= ttl :: entries[j]
  }

  ghost predicate Oldest(entries: map<string, int>, k: string) {
    k in entries && forall j :: j in entries ==> entries[k] <= entries[j]
  }

  /** `evictOldest`: some oldest entry goes, unless its key is the empty string. */
  ghost predicate Evicts(entries: map<string, int>, entries': map<string, int>) {
    if entries == map[] then entries' == entries
    else exists k :: Oldest(entries, k) && entries' == if k == "" then entries else entries - {k}
  }

  /** The entries after making room for one more. */
  ghost predicate MakesRoom(cfg: Config, entries: map<string, int>, now: int, entries': map<string, int>) {
    if |entries| < cfg.maxSize then entries' == entries
    else
      var live := Live(entries, now, cfg.Ttl());
      if |live| < cfg.maxSize then entries' == live else Evicts(live, entries')
  }

  /** `Check`: `unseen` says that the identifier was not on record; it then is. */
  ghost predicate Checks(cfg: Config, c: Cache, jti: string, now: int, c': Cache, unseen: bool) {
    var swept := if (c.checks + 1) % 100 == 0 then Live(c.entries, now, cfg.Ttl()) else c.entries;
    && (unseen <==> jti !in swept)
    && c'.checks == c.checks + 1
    && if jti in swept then c'.entries == swept
       else exists room :: MakesRoom(cfg, swept, now, room) && c'.entries == room[jti := now]
  }

  // ---- proofs ----

  /** One `ValidateProof` call. `genuine` stands for the checks before the window (format, key,
      signature, method, URI), `bound` for those after it (token hash, nonce). */
  datatype Attempt = Attempt(jti: string, iat: int, genuine: bool, bound: bool, checked: int, now: int)

  predicate InWindow(cfg: Config, a: Attempt) {
    a.checked - a.iat <= cfg.Ttl() && a.iat - a.checked <= cfg.maxSkew
  }

  predicate ReachesCache(cfg: Config, a: Attempt) {
    a.genuine && a.jti != "" && InWindow(cfg, a) && a.bound
  }

  ghost predicate Validates(cfg: Config, c: Cache, a: Attempt, c': Cache, accepted: bool) {
    if ReachesCache(cfg, a) then Checks(cfg, c, a.jti, a.now, c', accepted)
    else c' == c && !accepted
  }

  /** A proof is accepted exactly when its checks hold, it is at most maxAge + maxSkew old and at most
      maxSkew from the future, and its identifier is not on record, or is dropped by this very call as
      a hundredth one that finds it older than maxAge + maxSkew. */
  lemma AcceptedExactlyWhen(cfg: Config, c: Cache, a: Attempt, c': Cache, accepted: bool)
    requires Validates(cfg, c, a, c', accepted)
    ensures accepted <==>
            && a.genuine && a.jti != "" && a.bound
            && a.checked - a.iat <= cfg.maxAge + cfg.maxSkew && a.iat - a.checked <= cfg.maxSkew
            && (a.jti in c.entries ==> (c.checks + 1) % 100 == 0 && a.now - c.entries[a.jti] > cfg.maxAge + cfg.maxSkew)
    ensures accepted ==> a.jti in c'.entries && c'.entries[a.jti] == a.now
  {
  }

  /** Making room keeps what it keeps, and drops an entry only for its age, or as an oldest one. */
  lemma RoomDrops(cfg: Config, entries: map<string, int>, now: int, room: map<string, int>, j: string)
    requires MakesRoom(cfg, entries, now, room)
    ensures j in room ==> j in entries && room[j] == entries[j]
    ensures j in entries && j !in room && now - entries[j] <= cfg.Ttl() ==>
              |Live(entries, now, cfg.Ttl())| >= cfg.maxSize && Oldest(Live(entries, now, cfg.Ttl()), j)
  {
    var live := Live(entries, now, cfg.Ttl());
    if |entries| >= cfg.maxSize && |live| >= cfg.maxSize && live != map[] {
      var k :| Oldest(live, k) && room == if k == "" then live else live - {k};
    }
  }

  lemma LiveTwice(entries: map<string, int>, now: int, ttl: int)
    ensures Live(Live(entries, now, ttl), now, ttl) == Live(entries, now, ttl)
  {
  }

  lemma RecordingDrops(cfg: Config, entries: map<string, int>, jti: string, now: int, entries': map<string, int>, j: string)
    requires j != jti && exists room :: MakesRoom(cfg, entries, now, room) && entries' == room[jti := now]
    ensures j in entries' ==> j in entries && entries'[j] == entries[j]
    ensures j in entries && j !in entries' && now - entries[j] <= cfg.Ttl() ==>
              |Live(entries, now, cfg.Ttl())| >= cfg.maxSize && Oldest(Live(entries, now, cfg.Ttl()), j)
  {
    var room :| MakesRoom(cfg, entries, now, room) && entries' == room[jti := now];
    RoomDrops(cfg, entries, now, room, j);
  }

  /** Beyond its own identifier a call only ever drops entries: older ones than maxAge + maxSkew, or,
      when the cache is full of younger ones, an oldest of those. */
  lemma DropsOnlyOld(cfg: Config, c: Cache, a: Attempt, c': Cache, accepted: bool, j: string)
    requires Validates(cfg, c, a, c', accepted) && j != a.jti
    ensures j in c'.entries ==> j in c.entries && c'.entries[j] == c.entries[j]
    ensures j in c.entries && j !in c'.entries && a.now - c.entries[j] <= cfg.maxAge + cfg.maxSkew ==>
              var live := Live(c.entries, a.now, cfg.maxAge + cfg.maxSkew); |live| >= cfg.maxSize && Oldest(live, j)
  {
    if accepted {
      var live := Live(c.entries, a.now, cfg.Ttl());
      if (c.checks + 1) % 100 == 0 {
        LiveTwice(c.entries, a.now, cfg.Ttl());
        RecordingDrops(cfg, live, a.jti, a.now, c'.entries, j);
      } else {
        RecordingDrops(cfg, c.entries, a.jti, a.now, c'.entries, j);
      }
    }
  }

  // ---- the size bound ----

  lemma LiveIsPart(entries: map<string, int>, now: int, ttl: int)
    ensures |Live(entries, now, ttl)| <= |entries|
  {
    var live := Live(entries, now, ttl);
    assert live.Keys <= entries.Keys;
    SubsetSmaller(live.Keys, entries.Keys);
  }

  lemma {:induction false} SubsetSmaller(a: set<string>, b: set<string>)
    requires a <= b
    ensures |a| <= |b|
  {
    assert b == a + (b - a);
  }

  lemma RoomIsSmall(cfg: Config, entries: map<string, int>, now: int, room: map<string, int>)
    requires cfg.maxSize > 0 && |entries| <= cfg.maxSize && "" !in entries
    requires MakesRoom(cfg, entries, now, room)
    ensures |room| < cfg.maxSize && room.Keys <= entries.Keys
  {
    LiveIsPart(entries, now, cfg.Ttl());
    var live := Live(entries, now, cfg.Ttl());
    if |entries| >= cfg.maxSize && |live| >= cfg.maxSize {
      var k :| Oldest(live, k) && room == if k == "" then live else live - {k};
      assert room.Keys == live.Keys - {k};
    }
  }

  lemma InsertSize(room: map<string, int>, jti: string, now: int)
    ensures |room[jti := now]| <= |room| + 1 && room[jti := now].Keys == room.Keys + {jti}
  {
    assert room[jti := now].Keys == room.Keys + {jti};
  }

  lemma CheckSize(cfg: Config, swept: map<string, int>, jti: string, now: int, room: map<string, int>)
    requires cfg.maxSize > 0 && |swept| <= cfg.maxSize && "" !in swept && jti != ""
    requires MakesRoom(cfg, swept, now, room)
    ensures |room[jti := now]| <= cfg.maxSize && "" !in room[jti := now]
  {
    RoomIsSmall(cfg, swept, now, room);
    InsertSize(room, jti, now);
  }

  /** A validated call never lets the cache grow past its maximum. */
  lemma SizeBounded(cfg: Config, c: Cache, a: Attempt, c': Cache, accepted: bool)
    requires cfg.maxSize > 0 && |c.entries| <= cfg.maxSize && "" !in c.entries
    requires Validates(cfg, c, a, c', accepted)
    ensures |c'.entries| <= cfg.maxSize && "" !in c'.entries
  {
    LiveIsPart(c.entries, a.now, cfg.Ttl());
    if accepted {
      var swept := if (c.checks + 1) % 100 == 0 then Live(c.entries, a.now, cfg.Ttl()) else c.entries;
      var room :| MakesRoom(cfg, swept, a.now, room) && c'.entries == room[a.jti := a.now];
      CheckSize(cfg, swept, a.jti, a.now, room);
    }
  }

  /** A full cache whose oldest entry is that of the empty identifier. */
  ghost function FullCache(n: nat): (entries: map<string, int>)
    requires n > 0
    ensures |entries| == n && "" in entries && entries[""] == 0 && "x" !in entries
    ensures forall j :: j in entries ==> |j| < n && (j != "" ==> entries[j] == 1 && j[0] == 'y')
  {
    if n == 1 then map["" := 0]
    else
      var rest, key := FullCache(n - 1), seq(n - 1, _ => 'y');
      assert key !in rest && |rest[key := 1].Keys| == |rest.Keys + {key}|;
      assert key[0] == 'y' && "x"[0] == 'x';
      rest[key := 1]
  }

  /** The cache alone does not keep its bound, whatever its size, for the empty identifier, which is
      never evicted; `ValidateProof` rejects that identifier first. */
  lemma EmptyIdentifierBreaksBound(cfg: Config) returns (c: Cache, c': Cache)
    requires cfg.maxSize > 0 && cfg.Ttl() > 0
    ensures |c.entries| == cfg.maxSize && Checks(cfg, c, "x", 1, c', true) && |c'.entries| > cfg.maxSize
    ensures forall c'' :: Checks(cfg, c, "x", 1, c'', true) ==> c'' == c'
  {
    var full := FullCache(cfg.maxSize);
    c, c' := Cache(full, 0), Cache(full["x" := 1], 1);
    assert Live(full, 1, cfg.Ttl()) == full;
    assert Oldest(full, "") && Evicts(full, full);
    assert MakesRoom(cfg, full, 1, full);
    assert c'.entries.Keys == full.Keys + {"x"};
    forall room | MakesRoom(cfg, full, 1, room) ensures room == full {
      var k :| Oldest(full, k) && room == if k == "" then full else full - {k};
    }
  }

  // ---- runs ----

  /** Any calls on a new validator, in the order in which they get the cache lock. */
  ghost predicate IsHistory(cfg: Config, calls: seq<Attempt>, cs: seq<Cache>, accepted: seq<bool>) {
    && |cs| == |calls| + 1 && |accepted| == |calls| && cs[0] == Cache(map[], 0)
    && forall k :: 0 <= k < |calls| ==> Validates(cfg, cs[k], calls[k], cs[k + 1], accepted[k])
  }

  /** The cache never exceeds its maximum, whatever the calls and the clock do. */
  lemma {:induction false} NeverOverfull(cfg: Config, calls: seq<Attempt>, cs: seq<Cache>, accepted: seq<bool>, k: nat)
    requires cfg.maxSize > 0 && IsHistory(cfg, calls, cs, accepted) && k < |cs|
    ensures |cs[k].entries| <= cfg.maxSize && "" !in cs[k].entries
  {
    if k > 0 {
      NeverOverfull(cfg, calls, cs, accepted, k - 1);
      SizeBounded(cfg, cs[k - 1], calls[k - 1], cs[k], accepted[k - 1]);
    }
  }

  lemma EntryIsOwn(cfg: Config, c: Cache, a: Attempt, c': Cache, accepted: bool, jti: string)
    requires Validates(cfg, c, a, c', accepted) && jti in c'.entries
    ensures || (accepted && jti == a.jti && c'.entries[jti] == a.now)
            || (jti in c.entries && c'.entries[jti] == c.entries[jti])
  {
    if accepted && jti == a.jti {
      AcceptedExactlyWhen(cfg, c, a, c', accepted);
    } else if jti != a.jti {
      DropsOnlyOld(cfg, c, a, c', accepted, jti);
    }
  }

  /** What is on record was accepted before, at the time on record. */
  lemma {:induction false} EntryWasAccepted(cfg: Config, calls: seq<Attempt>, cs: seq<Cache>, accepted: seq<bool>, k: nat, jti: string) returns (j: nat)
    requires IsHistory(cfg, calls, cs, accepted) && k < |cs| && jti in cs[k].entries
    ensures j < k && accepted[j] && calls[j].jti == jti && calls[j].now == cs[k].entries[jti]
  {
    EntryIsOwn(cfg, cs[k - 1], calls[k - 1], cs[k], accepted[k - 1], jti);
    if jti in cs[k - 1].entries && cs[k].entries[jti] == cs[k - 1].entries[jti] {
      j := EntryWasAccepted(cfg, calls, cs, accepted, k - 1, jti);
    } else {
      j := k - 1;
    }
  }

  /** Nothing but a repeat is refused: in every history a proof whose checks hold and which is in its
      window is rejected only if one with its identifier was accepted before. */
  lemma OnlyRepeatsAreRefused(cfg: Config, calls: seq<Attempt>, cs: seq<Cache>, accepted: seq<bool>, k: nat) returns (j: nat)
    requires IsHistory(cfg, calls, cs, accepted) && k < |calls| && !accepted[k]
    requires calls[k].genuine && calls[k].jti != "" && calls[k].bound
    requires calls[k].checked - calls[k].iat <= cfg.maxAge + cfg.maxSkew && calls[k].iat - calls[k].checked <= cfg.maxSkew
    ensures j < k && accepted[j] && calls[j].jti == calls[k].jti
  {
    AcceptedExactlyWhen(cfg, cs[k], calls[k], cs[k + 1], accepted[k]);
    j := EntryWasAccepted(cfg, calls, cs, accepted, k, calls[k].jti);
  }

  /** A history in which the clock does not go back, no call takes
      longer than `latency` from its window check to the cache, and there are always fewer live
      entries than the cache can hold. */
  ghost predicate IsRun(cfg: Config, latency: nat, calls: seq<Attempt>, cs: seq<Cache>, accepted: seq<bool>) {
    && IsHistory(cfg, calls, cs, accepted)
    && (forall k :: 0 <= k < |calls| ==> calls[k].now - latency <= calls[k].checked <= calls[k].now)
    && (forall j, k :: 0 <= j < k < |calls| ==> calls[j].now <= calls[k].now)
    && (forall k :: 0 <= k < |calls| ==> |Live(cs[k].entries, calls[k].now, cfg.Ttl())| < cfg.maxSize)
  }

  /** While an entry is live, a check at that time leaves it on record. */
  lemma LiveEntrySurvives(cfg: Config, c: Cache, a: Attempt, c': Cache, accepted: bool, jti: string, ts: int)
    requires Validates(cfg, c, a, c', accepted) && |Live(c.entries, a.now, cfg.Ttl())| < cfg.maxSize
    requires jti in c.entries && c.entries[jti] == ts && a.now - ts <= cfg.Ttl()
    ensures jti in c'.entries && c'.entries[jti] == ts
    ensures a.jti == jti ==> !accepted
  {
    var live := Live(c.entries, a.now, cfg.Ttl());
    var swept := if (c.checks + 1) % 100 == 0 then live else c.entries;
    assert Live(swept, a.now, cfg.Ttl()) == live;
    if accepted {
      var room :| MakesRoom(cfg, swept, a.now, room) && c'.entries == room[a.jti := a.now];
    }
  }

  lemma {:induction false} EntryStays(cfg: Config, latency: nat, calls: seq<Attempt>, cs: seq<Cache>, accepted: seq<bool>, a: nat, k: nat)
    requires IsRun(cfg, latency, calls, cs, accepted) && a < k <= |calls| && accepted[a]
    requires calls[k - 1].now - calls[a].now <= cfg.Ttl()
    ensures calls[a].jti in cs[k].entries && cs[k].entries[calls[a].jti] == calls[a].now
  {
    if a + 1 == k {
      assert Validates(cfg, cs[a], calls[a], cs[k], accepted[a]);
    } else {
      EntryStays(cfg, latency, calls, cs, accepted, a, k - 1);
      LiveEntrySurvives(cfg, cs[k - 1], calls[k - 1], cs[k], accepted[k - 1], calls[a].jti, calls[a].now);
    }
  }

  /** Single acceptance: a proof issued at least `latency` before its first acceptance is never
      accepted again, because its entry outlasts its validity window. With one clock reading per
      call the latency is 0, and "not issued after its first acceptance" is enough. */
  lemma SingleAcceptance(cfg: Config, latency: nat, calls: seq<Attempt>, cs: seq<Cache>, accepted: seq<bool>, a: nat, b: nat)
    requires IsRun(cfg, latency, calls, cs, accepted) && a < b < |calls|
    requires calls[a].jti == calls[b].jti && calls[a].iat == calls[b].iat
    requires accepted[a] && calls[a].iat + latency <= calls[a].now
    ensures !accepted[b]
  {
    assert Validates(cfg, cs[b], calls[b], cs[b + 1], accepted[b]);
    if ReachesCache(cfg, calls[b]) {
      assert calls[b].now - latency <= calls[b].checked;
      EntryStays(cfg, latency, calls, cs, accepted, a, b);
      LiveEntrySurvives(cfg, cs[b], calls[b], cs[b + 1], accepted[b], calls[a].jti, calls[a].now);
    }
  }

  /** Some run accepts the proof at time `ts` and once more later. */
  ghost predicate Replayable(cfg: Config, latency: nat, jti: string, iat: int, ts: int) {
    exists calls, cs, accepted, a: nat, b: nat ::
      ReplayRun(cfg, latency, calls, cs, accepted, a, b, jti, iat, ts)
  }

  ghost predicate ReplayRun(cfg: Config, latency: nat, calls: seq<Attempt>, cs: seq<Cache>, accepted: seq<bool>, a: nat, b: nat, jti: string, iat: int, ts: int) {
    && IsRun(cfg, latency, calls, cs, accepted) && a < b < |calls| && accepted[a] && accepted[b]
    && calls[a].jti == calls[b].jti == jti && calls[a].iat == calls[b].iat == iat && calls[a].now == ts
  }

  lemma FirstSight(cfg: Config, c: Cache, a: Attempt)
    requires cfg.maxSize >= 2 && ReachesCache(cfg, a) && c == Cache(map[], 0)
    ensures Validates(cfg, c, a, Cache(map[a.jti := a.now], 1), true)
  {
    assert MakesRoom(cfg, map[], a.now, map[]) && map[a.jti := a.now] == map[][a.jti := a.now];
  }

  lemma RejectedRepeat(cfg: Config, c: Cache, a: Attempt)
    requires ReachesCache(cfg, a) && c.entries == map[a.jti := a.now] && c.checks < 99
    ensures Validates(cfg, c, a, Cache(c.entries, c.checks + 1), false)
  {
  }

  lemma SightAfterSweep(cfg: Config, c: Cache, ts: int, a: Attempt)
    requires cfg.maxSize >= 2 && ReachesCache(cfg, a) && c == Cache(map[a.jti := ts], 99) && a.now - ts > cfg.Ttl()
    ensures Validates(cfg, c, a, Cache(map[a.jti := a.now], 100), true)
  {
    assert Live(c.entries, a.now, cfg.Ttl()) == map[];
    assert MakesRoom(cfg, map[], a.now, map[]) && map[a.jti := a.now] == map[][a.jti := a.now];
  }

  // The replaying run: 99 calls at time `ts`, of which the first is accepted, and a hundredth at the
  // very end of the validity window, whose sweep has just dropped the entry.

  ghost function ReplayCalls(cfg: Config, latency: nat, jti: string, iat: int, ts: int): (calls: seq<Attempt>)
    ensures |calls| == 100 && forall k :: 0 <= k < 99 ==> calls[k] == Attempt(jti, iat, true, true, ts, ts)
    ensures calls[99] == Attempt(jti, iat, true, true, iat + cfg.Ttl(), iat + cfg.Ttl() + latency)
  {
    seq(100, k => if k < 99 then Attempt(jti, iat, true, true, ts, ts)
                  else Attempt(jti, iat, true, true, iat + cfg.Ttl(), iat + cfg.Ttl() + latency))
  }

  ghost function ReplayCaches(jti: string, ts: int, end: int): (cs: seq<Cache>)
    ensures |cs| == 101 && cs[0] == Cache(map[], 0) && cs[100] == Cache(map[jti := end], 100)
    ensures forall k :: 1 <= k < 100 ==> cs[k] == Cache(map[jti := ts], k)
  {
    seq(101, (k: nat) => Cache(if k == 0 then map[] else if k < 100 then map[jti := ts] else map[jti := end], k))
  }

  ghost function ReplayAnswers(): (answers: seq<bool>)
    ensures |answers| == 100 && forall k :: 0 <= k < 100 ==> answers[k] == (k == 0 || k == 99)
  {
    seq(100, k => k == 0 || k == 99)
  }

  lemma ReplayStep(cfg: Config, latency: nat, jti: string, iat: int, ts: int, k: nat)
    requires cfg.maxAge >= 0 && cfg.maxSkew >= 0 && cfg.maxSize >= 2 && jti != "" && k < 100
    requires InWindow(cfg, Attempt(jti, iat, true, true, ts, ts)) && ts < iat + latency
    ensures var calls, cs := ReplayCalls(cfg, latency, jti, iat, ts), ReplayCaches(jti, ts, iat + cfg.Ttl() + latency);
            && |Live(cs[k].entries, calls[k].now, cfg.Ttl())| < cfg.maxSize
            && Validates(cfg, cs[k], calls[k], cs[k + 1], ReplayAnswers()[k])
  {
    var calls, cs := ReplayCalls(cfg, latency, jti, iat, ts), ReplayCaches(jti, ts, iat + cfg.Ttl() + latency);
    LiveIsPart(cs[k].entries, calls[k].now, cfg.Ttl());
    if k == 0 {
      FirstSight(cfg, cs[0], calls[0]);
    } else if k == 99 {
      SightAfterSweep(cfg, cs[99], ts, calls[99]);
    } else {
      RejectedRepeat(cfg, cs[k], calls[k]);
    }
  }

  lemma LateProofIsReplayable(cfg: Config, latency: nat, jti: string, iat: int, ts: int)
    requires cfg.maxAge >= 0 && cfg.maxSkew >= 0 && cfg.maxSize >= 2 && jti != ""
    requires InWindow(cfg, Attempt(jti, iat, true, true, ts, ts)) && ts < iat + latency
    ensures Replayable(cfg, latency, jti, iat, ts)
  {
    var calls, cs := ReplayCalls(cfg, latency, jti, iat, ts), ReplayCaches(jti, ts, iat + cfg.Ttl() + latency);
    var answers := ReplayAnswers();
    forall k | 0 <= k < 100
      ensures |Live(cs[k].entries, calls[k].now, cfg.Ttl())| < cfg.maxSize
      ensures Validates(cfg, cs[k], calls[k], cs[k + 1], answers[k])
    {
      ReplayStep(cfg, latency, jti, iat, ts, k);
    }
    assert IsHistory(cfg, calls, cs, answers);
    assert ReplayRun(cfg, latency, calls, cs, answers, 0, 99, jti, iat, ts);
  }

  /** A proof acceptable at time `ts` can be replayed exactly when it was issued later than
      `latency` before that time; with one clock reading per call, exactly when it was issued in
      the future, which the allowed clock skew permits. */
  lemma ReplayableExactlyWhenLate(cfg: Config, latency: nat, jti: string, iat: int, ts: int)
    requires cfg.maxAge >= 0 && cfg.maxSkew >= 0 && cfg.maxSize >= 2 && jti != ""
    requires ts - iat <= cfg.maxAge + cfg.maxSkew && iat - ts <= cfg.maxSkew
    ensures Replayable(cfg, latency, jti, iat, ts) <==> ts < iat + latency
  {
    if ts < iat + latency {
      LateProofIsReplayable(cfg, latency, jti, iat, ts);
    } else if Replayable(cfg, latency, jti, iat, ts) {
      var calls, cs, accepted, a: nat, b: nat :| ReplayRun(cfg, latency, calls, cs, accepted, a, b, jti, iat, ts);
      SingleAcceptance(cfg, latency, calls, cs, accepted, a, b);
    }
  }

  datatype Verdict = Accepted | Invalid | Expired | Replay

  /** `DPoPValidator` with its `jtiCache`. */
  class Validator {
    const cfg: Config
    var entries: map<string, int>
    var checkCtr: nat

    ghost function Contents(): Cache
      reads this
    {
      Cache(entries, checkCtr)
    }

    /** `NewDPoPValidator`: zero durations get defaults, and the cache holds 10000 entries. */
    constructor (maxAge: int, maxSkew: int)
      ensures cfg == Config(if maxAge == 0 then 120 else maxAge, if maxSkew == 0 then 60 else maxSkew, 10000)
      ensures Contents() == Cache(map[], 0)
    {
      cfg := Config(if maxAge == 0 then 120 else maxAge, if maxSkew == 0 then 60 else maxSkew, 10000);
      entries, checkCtr := map[], 0;
    }

    method Cleanup(now: int)
      modifies this`entries
      ensures entries == Live(old(entries), now, cfg.Ttl())
    {
      var todo := entries.Keys;
      while todo != {}
        invariant todo <= old(entries).Keys
        invariant entries == map j | j in old(entries) && (j in todo || now - old(entries)[j] <= cfg.Ttl()) :: old(entries)[j]
        decreases |todo|
      {
        var j :| j in todo;
        if now - entries[j] > cfg.Ttl() { entries := entries - {j}; }
        todo := todo - {j};
      }
    }

    method EvictOldest()
      modifies this`entries
      ensures Evicts(old(entries), entries)
    {
      if entries == map[] { return; }
      var todo := entries.Keys;
      var k: string :| k in todo;
      var oldest := k;
      while todo != {}
        invariant todo <= entries.Keys && oldest in entries && entries == old(entries)
        invariant forall j :: j in entries && j !in todo ==> entries[oldest] <= entries[j]
        decreases |todo|
      {
        var j :| j in todo;
        if entries[j] < entries[oldest] { oldest := j; }
        todo := todo - {j};
      }
      assert Oldest(entries, oldest);
      if oldest != "" { entries := entries - {oldest}; }
    }

    method Check(jti: string, now: int) returns (unseen: bool)
      modifies this`entries, this`checkCtr
      ensures Checks(cfg, old(Contents()), jti, now, Contents(), unseen)
    {
      checkCtr := checkCtr + 1;
      if checkCtr % 100 == 0 { Cleanup(now); }
      if jti in entries { return false; }
      ghost var swept := entries;
      if |entries| >= cfg.maxSize {
        Cleanup(now);
        if |entries| >= cfg.maxSize { EvictOldest(); }
      }
      assert MakesRoom(cfg, swept, now, entries);
      entries := entries[jti := now];
      return true;
    }

    method ValidateProof(a: Attempt) returns (verdict: Verdict)
      modifies this`entries, this`checkCtr
      ensures Validates(cfg, old(Contents()), a, Contents(), verdict.Accepted?)
      ensures verdict.Expired? <==> a.genuine && a.jti != "" && a.checked - a.iat > cfg.maxAge + cfg.maxSkew
      ensures verdict.Accepted? || verdict.Replay? <==>
              && a.genuine && a.jti != "" && a.bound
              && a.checked - a.iat <= cfg.maxAge + cfg.maxSkew && a.iat - a.checked <= cfg.maxSkew
      ensures verdict.Accepted? ==> a.jti in entries && entries[a.jti] == a.now
    {
      if !a.genuine || a.jti == "" { return Invalid; }
      if a.checked - a.iat > cfg.Ttl() { return Expired; }
      if a.iat - a.checked > cfg.maxSkew { return Invalid; }
      if !a.bound { return Invalid; }
      var unseen := Check(a.jti, a.now);
      return if unseen then Accepted else Replay;
    }
  }
}

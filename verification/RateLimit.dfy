/** Per-agent token buckets: `a2a/ratelimit_interceptor.go`. Time and tokens are reals; every clock
    reading is an argument. */
module RateLimit {

  datatype Bucket = Bucket(rate: real, burst: real, tokens: real, last: real)

  function NewBucket(rate: real, burst: real, now: real): Bucket {
    Bucket(rate, burst, burst, now)
  }

  /** Tokens earned between two moments. */
  function Earned(rate: real, from: real, to: real): real {
    (to - from) * rate
  }

  function Refilled(b: Bucket, now: real): Bucket {
    var tokens := b.tokens + Earned(b.rate, b.last, now);
    b.(tokens := if tokens > b.burst then b.burst else tokens, last := now)
  }

  predicate Admits(b: Bucket, now: real) {
    Refilled(b, now).tokens >= 1.0
  }

  function AfterCall(b: Bucket, now: real): Bucket {
    var r := Refilled(b, now);
    if r.tokens >= 1.0 then r.(tokens := r.tokens - 1.0) else r
  }

  ghost predicate Sound(b: Bucket) {
    b.rate >= 0.0 && 0.0 <= b.tokens <= b.burst
  }

  lemma EarnedIs(rate: real, from: real, to: real)
    ensures Earned(rate, from, to) == (to - from) * rate == rate * (to - from)
  {
  }

  lemma OneToken(rate: real, from: real, to: real)
    requires (to - from) * rate >= 1.0
    ensures Earned(rate, from, to) >= 1.0
  {
    EarnedIs(rate, from, to);
  }

  lemma EarnedNonNegative(rate: real, from: real, to: real)
    requires rate >= 0.0 && from <= to
    ensures Earned(rate, from, to) >= 0.0
  {
  }

  lemma EarnedAddsUp(rate: real, a: real, b: real, c: real)
    ensures Earned(rate, a, b) + Earned(rate, b, c) == Earned(rate, a, c)
  {
  }

  function Cost(b: Bucket, now: real): real {
    if Admits(b, now) then 1.0 else 0.0
  }

  /** What one call does: tokens stay within the burst, and admission plus growth is paid for by the
      elapsed time. */
  lemma CallKeepsSound(b: Bucket, now: real)
    requires Sound(b) && b.last <= now
    ensures Sound(AfterCall(b, now)) && AfterCall(b, now).last == now
    ensures AfterCall(b, now).rate == b.rate && AfterCall(b, now).burst == b.burst
    ensures var have := b.tokens + (now - b.last) * b.rate;
            && AfterCall(b, now).tokens + Cost(b, now) == (if have > b.burst then b.burst else have)
            && (Admits(b, now) <==> have >= 1.0 && b.burst >= 1.0)
  {
    EarnedIs(b.rate, b.last, now);
    EarnedNonNegative(b.rate, b.last, now);
  }

  // ---- runs of one bucket ----

  ghost predicate InOrder(start: real, ts: seq<real>) {
    && (forall k :: 0 <= k < |ts| ==> start <= ts[k])
    && (forall j, k :: 0 <= j < k < |ts| ==> ts[j] <= ts[k])
  }

  function After(b: Bucket, ts: seq<real>): Bucket {
    if ts == [] then b else AfterCall(After(b, ts[..|ts| - 1]), ts[|ts| - 1])
  }

  /** How many of the calls that fall into [lo, hi] are admitted, as a real. */
  function Admitted(b: Bucket, ts: seq<real>, lo: real, hi: real): real {
    if ts == [] then 0.0
    else
      var n := |ts| - 1;
      Admitted(b, ts[..n], lo, hi) + if lo <= ts[n] <= hi then Cost(After(b, ts[..n]), ts[n]) else 0.0
  }

  lemma {:induction false} TokensStayInRange(b: Bucket, ts: seq<real>)
    requires Sound(b) && InOrder(b.last, ts)
    ensures Sound(After(b, ts)) && After(b, ts).rate == b.rate && After(b, ts).burst == b.burst
    ensures After(b, ts).last == if ts == [] then b.last else ts[|ts| - 1]
  {
    if ts != [] {
      var n := |ts| - 1;
      TokensStayInRange(b, ts[..n]);
      CallKeepsSound(After(b, ts[..n]), ts[n]);
    }
  }

  /** Counting from `lo` on, `count` admissions and the tokens left are paid for by one full bucket
      and the time since `lo`. */
  ghost predicate PaidFor(b: Bucket, count: real, lo: real) {
    if b.last < lo then count == 0.0
    else count + b.tokens <= b.burst + Earned(b.rate, lo, b.last)
  }

  lemma CallIsPaidFor(b: Bucket, now: real, count: real, lo: real)
    requires Sound(b) && b.last <= now && PaidFor(b, count, lo)
    ensures PaidFor(AfterCall(b, now), count + (if lo <= now then Cost(b, now) else 0.0), lo)
  {
    CallKeepsSound(b, now);
    if lo <= now {
      if b.last < lo {
        EarnedNonNegative(b.rate, lo, now);
      } else {
        EarnedAddsUp(b.rate, lo, b.last, now);
      }
    }
  }

  lemma StartIsPaidFor(b: Bucket, lo: real)
    requires Sound(b)
    ensures PaidFor(b, 0.0, lo)
  {
    if b.last >= lo { EarnedNonNegative(b.rate, lo, b.last); }
  }

  lemma {:induction false} RunIsPaidFor(b: Bucket, ts: seq<real>, lo: real, hi: real)
    requires Sound(b) && InOrder(b.last, ts) && (forall k :: 0 <= k < |ts| ==> ts[k] <= hi)
    ensures PaidFor(After(b, ts), Admitted(b, ts, lo, hi), lo)
  {
    if ts == [] {
      StartIsPaidFor(b, lo);
    } else {
      var n := |ts| - 1;
      RunIsPaidFor(b, ts[..n], lo, hi);
      TokensStayInRange(b, ts[..n]);
      CallIsPaidFor(After(b, ts[..n]), ts[n], Admitted(b, ts[..n], lo, hi), lo);
    }
  }

  lemma PaidForMeansEarned(b: Bucket, count: real, lo: real, hi: real)
    requires Sound(b) && PaidFor(b, count, lo) && b.last <= hi && lo <= hi
    ensures count <= b.burst + Earned(b.rate, lo, hi)
  {
    EarnedNonNegative(b.rate, lo, hi);
    if b.last >= lo {
      EarnedAddsUp(b.rate, lo, b.last, hi);
      EarnedNonNegative(b.rate, b.last, hi);
    }
  }

  lemma InNumbers(count: real, burst: real, rate: real, lo: real, hi: real)
    requires count <= burst + Earned(rate, lo, hi)
    ensures count <= burst + (hi - lo) * rate
  {
    EarnedIs(rate, lo, hi);
  }

  /** `earned` is what the rate earns in the window. */
  lemma {:induction false} WindowIsPaidFor(b: Bucket, ts: seq<real>, lo: real, hi: real, earned: real)
    requires Sound(b) && InOrder(b.last, ts) && lo <= hi && earned == (hi - lo) * b.rate
    ensures Admitted(b, ts, lo, hi) <= b.burst + earned
  {
    if ts == [] {
      ProductNonNegative(b.rate, lo, hi, earned);
    } else if ts[|ts| - 1] > hi {
      WindowIsPaidFor(b, ts[..|ts| - 1], lo, hi, earned);
    } else {
      RunIsPaidFor(b, ts, lo, hi);
      TokensStayInRange(b, ts);
      PaidForMeansBounded(After(b, ts), Admitted(b, ts, lo, hi), lo, hi, earned);
    }
  }

  lemma ProductNonNegative(rate: real, lo: real, hi: real, earned: real)
    requires rate >= 0.0 && lo <= hi && earned == (hi - lo) * rate
    ensures earned >= 0.0
  {
  }

  lemma PaidForMeansBounded(b: Bucket, count: real, lo: real, hi: real, earned: real)
    requires Sound(b) && PaidFor(b, count, lo) && b.last <= hi && lo <= hi && earned == (hi - lo) * b.rate
    ensures count <= b.burst + earned
  {
    PaidForMeansEarned(b, count, lo, hi);
    InNumbers(count, b.burst, b.rate, lo, hi);
  }

  /** Token bucket bound: over any run, the calls admitted in a window [lo, hi] number at most
      burst + rate * (hi - lo). */
  lemma WindowBound(b: Bucket, ts: seq<real>, lo: real, hi: real)
    requires Sound(b) && InOrder(b.last, ts) && lo <= hi
    ensures Admitted(b, ts, lo, hi) <= b.burst + (hi - lo) * b.rate
  {
    WindowIsPaidFor(b, ts, lo, hi, (hi - lo) * b.rate);
  }

  /** The other direction: a full bucket admits any first calls up to its burst, however close. */
  lemma {:induction false} BurstIsAdmitted(b: Bucket, ts: seq<real>, lo: real, hi: real)
    requires Sound(b) && b.tokens == b.burst && InOrder(b.last, ts) && |ts| as real <= b.burst
    requires forall k :: 0 <= k < |ts| ==> lo <= ts[k] <= hi
    ensures After(b, ts).tokens >= b.burst - |ts| as real
    ensures Admitted(b, ts, lo, hi) == |ts| as real
  {
    if ts != [] {
      var n := |ts| - 1;
      BurstIsAdmitted(b, ts[..n], lo, hi);
      TokensStayInRange(b, ts[..n]);
      EarnedNonNegative(b.rate, After(b, ts[..n]).last, ts[n]);
    }
  }

  /** Calls at least one token apart are all admitted. */
  lemma {:induction false} SpacedCallsAreAdmitted(b: Bucket, ts: seq<real>, k: nat)
    requires Sound(b) && b.tokens >= 1.0 && InOrder(b.last, ts) && k < |ts|
    requires forall j :: 0 <= j < |ts| - 1 ==> (ts[j + 1] - ts[j]) * b.rate >= 1.0
    ensures Admits(After(b, ts[..k]), ts[k])
  {
    TokensStayInRange(b, ts[..k]);
    EarnedNonNegative(b.rate, After(b, ts[..k]).last, ts[k]);
    if k > 0 {
      assert ts[..k][..k - 1] == ts[..k - 1];
      assert After(b, ts[..k]).last == ts[k - 1];
      assert (ts[k - 1 + 1] - ts[k - 1]) * b.rate >= 1.0;
      OneToken(b.rate, ts[k - 1], ts[k]);
    }
  }

  // ---- many agents ----

  datatype Config = Config(rate: real, burst: nat)

  /** `NewRateLimitInterceptor` replaces non-positive settings. */
  function WithDefaults(rate: real, burst: int): (cfg: Config)
    ensures cfg.rate > 0.0 && cfg.burst > 0
    ensures rate > 0.0 ==> cfg.rate == rate
    ensures burst > 0 ==> cfg.burst == burst
    ensures rate <= 0.0 && burst <= 0 ==> cfg == Config(10.0, 20)
  {
    Config(if rate <= 0.0 then 10.0 else rate, if burst <= 0 then 20 else burst)
  }

  /** One `Allow`: the clock when a missing bucket would be made, and when the bucket is asked. */
  datatype Call = Call(agent: string, made: real, now: real)

  function BucketFor(cfg: Config, buckets: map<string, Bucket>, c: Call): Bucket {
    if c.agent in buckets then buckets[c.agent] else NewBucket(cfg.rate, cfg.burst as real, c.made)
  }

  function Allowed(cfg: Config, buckets: map<string, Bucket>, c: Call): map<string, Bucket> {
    buckets[c.agent := AfterCall(BucketFor(cfg, buckets, c), c.now)]
  }

  /** What happens to an interceptor: a call asks, or an agent is given a rate of its own. */
  datatype Act = Ask(call: Call) | SetRate(agent: string, rate: real, burst: int, now: real)

  function AfterAct(cfg: Config, buckets: map<string, Bucket>, act: Act): map<string, Bucket> {
    match act
    case Ask(c) => Allowed(cfg, buckets, c)
    case SetRate(agent, rate, burst, now) => buckets[agent := NewBucket(rate, burst as real, now)]
  }

  function AfterAll(cfg: Config, acts: seq<Act>): map<string, Bucket> {
    if acts == [] then map[] else AfterAct(cfg, AfterAll(cfg, acts[..|acts| - 1]), acts[|acts| - 1])
  }

  predicate AsksFor(act: Act, agent: string) { act.Ask? && act.call.agent == agent }

  predicate SetsFor(act: Act, agent: string) { act.SetRate? && act.agent == agent }

  /** How many calls of the agent were admitted in a window, counted since its rate was last set. */
  function AdmittedFor(cfg: Config, acts: seq<Act>, agent: string, lo: real, hi: real): real {
    if acts == [] then 0.0
    else
      var n := |acts| - 1;
      if SetsFor(acts[n], agent) then 0.0
      else
        AdmittedFor(cfg, acts[..n], agent, lo, hi) +
        if AsksFor(acts[n], agent) && lo <= acts[n].call.now <= hi
        then Cost(BucketFor(cfg, AfterAll(cfg, acts[..n]), acts[n].call), acts[n].call.now) else 0.0
  }

  /** The times of the agent's calls since its rate was last set. */
  function TimesOf(acts: seq<Act>, agent: string): seq<real> {
    if acts == [] then []
    else
      var n := |acts| - 1;
      if SetsFor(acts[n], agent) then []
      else TimesOf(acts[..n], agent) + if AsksFor(acts[n], agent) then [acts[n].call.now] else []
  }

  /** The full bucket the agent was last given: by its first call or by setting its rate. */
  function BaseOf(cfg: Config, acts: seq<Act>, agent: string): Bucket {
    if acts == [] then NewBucket(cfg.rate, cfg.burst as real, 0.0)
    else
      var n := |acts| - 1;
      if SetsFor(acts[n], agent) then NewBucket(acts[n].rate, acts[n].burst as real, acts[n].now)
      else if AsksFor(acts[n], agent) && agent !in AfterAll(cfg, acts[..n]) then
        NewBucket(cfg.rate, cfg.burst as real, acts[n].call.made)
      else BaseOf(cfg, acts[..n], agent)
  }

  /** Isolation: an agent's bucket and admissions are those of its own calls since it got its bucket;
      nothing done for another agent changes them. */
  lemma {:induction false} AgentsAreIsolated(cfg: Config, acts: seq<Act>, agent: string, lo: real, hi: real)
    ensures agent in AfterAll(cfg, acts) ==>
              && AfterAll(cfg, acts)[agent] == After(BaseOf(cfg, acts, agent), TimesOf(acts, agent))
              && AdmittedFor(cfg, acts, agent, lo, hi) == Admitted(BaseOf(cfg, acts, agent), TimesOf(acts, agent), lo, hi)
    ensures agent !in AfterAll(cfg, acts) ==> AdmittedFor(cfg, acts, agent, lo, hi) == 0.0 && TimesOf(acts, agent) == []
  {
    if acts != [] {
      var n := |acts| - 1;
      AgentsAreIsolated(cfg, acts[..n], agent, lo, hi);
      var before := TimesOf(acts[..n], agent);
      if AsksFor(acts[n], agent) {
        assert TimesOf(acts, agent) == before + [acts[n].call.now];
        assert TimesOf(acts, agent)[..|before|] == before;
      } else if !SetsFor(acts[n], agent) {
        assert TimesOf(acts, agent) == before;
      }
    }
  }

  /** Before its rate is set for the first time an agent has the rate and burst of the configuration. */
  lemma {:induction false} DefaultBase(cfg: Config, acts: seq<Act>, agent: string)
    requires forall i :: 0 <= i < |acts| ==> !SetsFor(acts[i], agent)
    ensures BaseOf(cfg, acts, agent).rate == cfg.rate && BaseOf(cfg, acts, agent).burst == cfg.burst as real
    ensures BaseOf(cfg, acts, agent).tokens == cfg.burst as real
  {
    if acts != [] { DefaultBase(cfg, acts[..|acts| - 1], agent); }
  }

  /** The bound holds for every agent, with the rate and burst it has at the time, whatever is done for
      other agents. */
  lemma PerAgentBound(cfg: Config, acts: seq<Act>, agent: string, lo: real, hi: real)
    requires var b := BaseOf(cfg, acts, agent); b.rate >= 0.0 && b.burst >= 0.0 && InOrder(b.last, TimesOf(acts, agent))
    requires lo <= hi
    ensures var b := BaseOf(cfg, acts, agent); AdmittedFor(cfg, acts, agent, lo, hi) <= b.burst + (hi - lo) * b.rate
  {
    var b := BaseOf(cfg, acts, agent);
    AgentIsPaidFor(cfg, acts, agent, lo, hi);
    InNumbers(AdmittedFor(cfg, acts, agent, lo, hi), b.burst, b.rate, lo, hi);
  }

  lemma AgentIsPaidFor(cfg: Config, acts: seq<Act>, agent: string, lo: real, hi: real)
    requires var b := BaseOf(cfg, acts, agent); b.rate >= 0.0 && b.burst >= 0.0 && InOrder(b.last, TimesOf(acts, agent))
    requires lo <= hi
    ensures var b := BaseOf(cfg, acts, agent); AdmittedFor(cfg, acts, agent, lo, hi) <= b.burst + Earned(b.rate, lo, hi)
  {
    var b := BaseOf(cfg, acts, agent);
    AgentsAreIsolated(cfg, acts, agent, lo, hi);
    BaseIsFull(cfg, acts, agent);
    WindowIsPaidFor(b, TimesOf(acts, agent), lo, hi, Earned(b.rate, lo, hi));
    EarnedNonNegative(b.rate, lo, hi);
  }

  lemma {:induction false} BaseIsFull(cfg: Config, acts: seq<Act>, agent: string)
    ensures BaseOf(cfg, acts, agent).tokens == BaseOf(cfg, acts, agent).burst
  {
    if acts != [] { BaseIsFull(cfg, acts[..|acts| - 1], agent); }
  }

  /** `tokenBucket`. */
  class TokenBucket {
    const rate: real
    const burst: int
    var tokens: real
    var lastTime: real

    ghost function Contents(): Bucket
      reads this
    {
      Bucket(rate, burst as real, tokens, lastTime)
    }

    constructor (rate: real, burst: int, now: real)
      ensures Contents() == NewBucket(rate, burst as real, now)
    {
      this.rate, this.burst, tokens, lastTime := rate, burst, burst as real, now;
    }

    method Allow(now: real) returns (ok: bool)
      modifies this
      ensures ok == Admits(old(Contents()), now) && Contents() == AfterCall(old(Contents()), now)
      ensures var have := old(tokens) + (now - old(lastTime)) * rate; ok <==> have >= 1.0 && burst >= 1
    {
      tokens := tokens + Earned(rate, lastTime, now);
      if tokens > burst as real { tokens := burst as real; }
      lastTime := now;
      ok := tokens >= 1.0;
      if ok { tokens := tokens - 1.0; }
    }
  }

  /** `RateLimitInterceptor`: one bucket object per agent. */
  class Interceptor {
    const cfg: Config
    var limiters: map<string, TokenBucket>

    /** No two agents share a bucket. */
    ghost predicate Valid()
      reads this
    {
      forall a, b :: a in limiters && b in limiters && a != b ==> limiters[a] != limiters[b]
    }

    ghost function Contents(): map<string, Bucket>
      reads this, limiters.Values
    {
      map a | a in limiters :: limiters[a].Contents()
    }

    constructor (rate: real, burst: int)
      ensures cfg == WithDefaults(rate, burst) && Valid() && Contents() == AfterAll(cfg, [])
    {
      cfg := WithDefaults(rate, burst);
      limiters := map[];
    }

    method Allow(c: Call) returns (ok: bool)
      requires Valid()
      modifies this, limiters.Values
      ensures Valid() && Contents() == AfterAct(cfg, old(Contents()), Ask(c))
      ensures ok == Admits(BucketFor(cfg, old(Contents()), c), c.now)
    {
      if c.agent !in limiters {
        var made := new TokenBucket(cfg.rate, cfg.burst, c.made);
        limiters := limiters[c.agent := made];
      }
      ok := limiters[c.agent].Allow(c.now);
    }

    method SetAgentRate(agent: string, rate: real, burst: int, now: real)
      requires Valid()
      modifies this
      ensures Valid() && Contents() == AfterAct(cfg, old(Contents()), SetRate(agent, rate, burst, now))
      ensures agent in Contents() && Contents()[agent] == Bucket(rate, burst as real, burst as real, now)
    {
      var made := new TokenBucket(rate, burst, now);
      limiters := limiters[agent := made];
    }
  }
}

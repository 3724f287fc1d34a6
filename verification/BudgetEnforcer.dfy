/** Dollar budgets with thresholds and actions: `BudgetEnforcer` (`finops/enforcement.go`) with its
    internal cost accumulator. Amounts are reals. */
module BudgetEnforcement {

  datatype Action = Warn | Block | Downgrade | Unknown(name: string)

  datatype Policy = Policy(name: string, limit: real, thresholds: seq<real>, action: Action)

  datatype Alert = Alert(policy: string, threshold: real, cost: real, limit: real)

  /** `alerting` says whether an alert callback is installed; `alerts` is the history of its calls. */
  datatype State = State(
    alerting: bool, policies: seq<Policy>, fired: map<string, set<real>>, cost: real, alerts: seq<Alert>)

  datatype Event = AddPolicy(policy: Policy) | RecordCost(amount: real) | Check

  // ---- firing ----

  function FiredOf(s: State, name: string): set<real> {
    if name in s.fired then s.fired[name] else {}
  }

  predicate Reached(cost: real, p: Policy, t: real)
    requires p.limit > 0.0
  {
    cost / p.limit >= t
  }

  function FireOne(s: State, p: Policy, t: real): State
    requires p.limit > 0.0
  {
    if Reached(s.cost, p, t) && t !in FiredOf(s, p.name) then
      s.(fired := s.fired[p.name := FiredOf(s, p.name) + {t}],
         alerts := s.alerts + [Alert(p.name, t, s.cost, p.limit)])
    else s
  }

  function FireEach(s: State, p: Policy, ts: seq<real>): State
    requires p.limit > 0.0
    decreases |ts|
  {
    if ts == [] then s else FireEach(FireOne(s, p, ts[0]), p, ts[1..])
  }

  function Insert(t: real, ts: seq<real>): seq<real> {
    if ts == [] || t <= ts[0] then [t] + ts else [ts[0]] + Insert(t, ts[1..])
  }

  /** The thresholds in ascending order, the order in which they fire. */
  function Ascending(ts: seq<real>): seq<real> {
    if ts == [] then [] else Insert(ts[0], Ascending(ts[1..]))
  }

  /** `fireAlerts`. */
  function Fire(s: State, p: Policy): State {
    if !s.alerting || p.limit <= 0.0 then s else FireEach(s, p, Ascending(p.thresholds))
  }

  function FireAll(s: State, ps: seq<Policy>): State
    decreases |ps|
  {
    if ps == [] then s else FireAll(Fire(s, ps[0]), ps[1..])
  }

  predicate Exceeded(cost: real, p: Policy) {
    p.limit > 0.0 && Reached(cost, p, 1.0)
  }

  /** The policies `Check` gets to: up to the first blocking one that is exceeded. */
  function Visited(cost: real, ps: seq<Policy>): seq<Policy> {
    if ps == [] then []
    else if Exceeded(cost, ps[0]) && ps[0].action.Block? then [ps[0]]
    else [ps[0]] + Visited(cost, ps[1..])
  }

  /** The action `Check` arrives at, given the one it holds so far. */
  function Verdict(cost: real, ps: seq<Policy>, so: Action): Action {
    if ps == [] then so
    else if !Exceeded(cost, ps[0]) then Verdict(cost, ps[1..], so)
    else if ps[0].action.Block? then Block
    else Verdict(cost, ps[1..], if ps[0].action.Downgrade? then Downgrade else so)
  }

  function Step(s: State, e: Event): State {
    match e
    case AddPolicy(p) => s.(policies := s.policies + [p], fired := s.fired[p.name := {}])
    case RecordCost(amount) => var t := s.(cost := s.cost + amount); FireAll(t, t.policies)
    case Check => FireAll(s, Visited(s.cost, s.policies))
  }

  // ---- which alerts are due ----

  /** A policy of this name has a positive limit and its spend ratio has reached the threshold. */
  ghost predicate Due(s: State, name: string, t: real) {
    exists p :: p in s.policies && p.name == name && p.limit > 0.0 && t in p.thresholds && Reached(s.cost, p, t)
  }

  ghost predicate Alerted(s: State, name: string, t: real) {
    exists i :: 0 <= i < |s.alerts| && s.alerts[i].policy == name && s.alerts[i].threshold == t
  }

  ghost predicate DistinctNames(ps: seq<Policy>) {
    forall i, j :: 0 <= i < j < |ps| ==> ps[i].name != ps[j].name
  }

  /** The alerts sent and the thresholds marked as fired are the same, and none was sent twice. */
  ghost predicate Logged(s: State) {
    && (forall name, t :: t in FiredOf(s, name) <==> Alerted(s, name, t))
    && (forall i, j :: 0 <= i < j < |s.alerts| ==>
          s.alerts[i].policy != s.alerts[j].policy || s.alerts[i].threshold != s.alerts[j].threshold)
  }

  ghost predicate OnlyDue(s: State) {
    forall name, t :: Alerted(s, name, t) ==> Due(s, name, t)
  }

  /** The alerts of one policy were sent in strictly ascending order of their thresholds. */
  ghost predicate Ordered(s: State) {
    forall i, j :: 0 <= i < j < |s.alerts| && s.alerts[i].policy == s.alerts[j].policy ==>
      s.alerts[i].threshold < s.alerts[j].threshold
  }

  /** No threshold among `ts` was passed over by a larger one that has fired. */
  ghost predicate NoneSkipped(s: State, name: string, ts: seq<real>) {
    forall t, u :: t in ts && t < u && Alerted(s, name, u) ==> Alerted(s, name, t)
  }

  ghost predicate Inv(s: State) {
    && DistinctNames(s.policies) && Logged(s) && OnlyDue(s) && Ordered(s)
    && forall p :: p in s.policies && p.limit > 0.0 ==> NoneSkipped(s, p.name, p.thresholds)
  }

  lemma {:induction false} InsertKeepsMembers(t: real, ts: seq<real>)
    ensures forall x :: x in Insert(t, ts) <==> x == t || x in ts
  {
    if ts != [] && t > ts[0] {
      InsertKeepsMembers(t, ts[1..]);
      assert ts == [ts[0]] + ts[1..];
    }
  }

  lemma {:induction false} AscendingKeepsMembers(ts: seq<real>)
    ensures forall x :: x in Ascending(ts) <==> x in ts
  {
    if ts != [] {
      AscendingKeepsMembers(ts[1..]);
      InsertKeepsMembers(ts[0], Ascending(ts[1..]));
      assert ts == [ts[0]] + ts[1..];
    }
  }

  /** Nothing but the fired marks and the alert history changes, and neither loses anything. */
  ghost predicate Grows(s: State, s': State) {
    && s'.alerting == s.alerting && s'.policies == s.policies && s'.cost == s.cost
    && (forall name, t :: Alerted(s, name, t) ==> Alerted(s', name, t))
  }

  lemma FireOneEffect(s: State, p: Policy, t: real)
    requires p.limit > 0.0 && Logged(s)
    ensures Logged(FireOne(s, p, t)) && Grows(s, FireOne(s, p, t))
    ensures forall name, x :: Alerted(FireOne(s, p, t), name, x) ==>
              Alerted(s, name, x) || (name == p.name && x == t && Reached(s.cost, p, t))
    ensures Reached(s.cost, p, t) ==> Alerted(FireOne(s, p, t), p.name, t)
  {
    var s' := FireOne(s, p, t);
    if s' != s {
      var a := Alert(p.name, t, s.cost, p.limit);
      assert s'.alerts == s.alerts + [a];
      assert !Alerted(s, p.name, t);
      forall name, x ensures Alerted(s', name, x) <==> Alerted(s, name, x) || (name == p.name && x == t) {
        if Alerted(s, name, x) {
          var i :| 0 <= i < |s.alerts| && s.alerts[i].policy == name && s.alerts[i].threshold == x;
          assert s'.alerts[i] == s.alerts[i];
        }
        if name == p.name && x == t { assert s'.alerts[|s.alerts|] == a; }
      }
    }
  }

  lemma {:induction false} FireEachEffect(s: State, p: Policy, ts: seq<real>)
    requires p.limit > 0.0 && Logged(s)
    ensures Logged(FireEach(s, p, ts)) && Grows(s, FireEach(s, p, ts))
    ensures forall name, x :: Alerted(FireEach(s, p, ts), name, x) ==>
              Alerted(s, name, x) || (name == p.name && x in ts && Reached(s.cost, p, x))
    ensures forall x :: x in ts && Reached(s.cost, p, x) ==> Alerted(FireEach(s, p, ts), p.name, x)
    decreases |ts|
  {
    if ts != [] {
      FireOneEffect(s, p, ts[0]);
      FireEachEffect(FireOne(s, p, ts[0]), p, ts[1..]);
      assert ts == [ts[0]] + ts[1..];
    }
  }

  /** One policy's thresholds that are reached have fired. */
  ghost predicate Settled(s: State, p: Policy) {
    p.limit > 0.0 ==> forall t :: t in p.thresholds && Reached(s.cost, p, t) ==> Alerted(s, p.name, t)
  }

  lemma FireEffect(s: State, p: Policy)
    requires Logged(s) && OnlyDue(s) && s.alerting && p in s.policies
    ensures Logged(Fire(s, p)) && OnlyDue(Fire(s, p)) && Grows(s, Fire(s, p)) && Settled(Fire(s, p), p)
  {
    if p.limit > 0.0 {
      FireEachEffect(s, p, Ascending(p.thresholds));
      AscendingKeepsMembers(p.thresholds);
    }
  }

  lemma {:induction false} FireAllEffect(s: State, ps: seq<Policy>)
    requires Logged(s) && OnlyDue(s) && s.alerting && forall p :: p in ps ==> p in s.policies
    ensures Logged(FireAll(s, ps)) && OnlyDue(FireAll(s, ps)) && Grows(s, FireAll(s, ps))
    ensures forall p :: p in ps ==> Settled(FireAll(s, ps), p)
    decreases |ps|
  {
    if ps != [] {
      FireEffect(s, ps[0]);
      FireAllEffect(Fire(s, ps[0]), ps[1..]);
      assert ps == [ps[0]] + ps[1..];
    }
  }

  ghost predicate SortedUp(ts: seq<real>) {
    forall i, j :: 0 <= i < j < |ts| ==> ts[i] <= ts[j]
  }

  lemma {:induction false} InsertKeepsSorted(t: real, ts: seq<real>)
    requires SortedUp(ts)
    ensures SortedUp(Insert(t, ts))
  {
    if ts != [] && t > ts[0] {
      InsertKeepsSorted(t, ts[1..]);
      InsertKeepsMembers(t, ts[1..]);
      var r := Insert(t, ts[1..]);
      forall j | 0 <= j < |r| ensures ts[0] <= r[j] {
        assert r[j] in r;
      }
    }
  }

  lemma {:induction false} AscendingIsSorted(ts: seq<real>)
    ensures SortedUp(Ascending(ts))
  {
    if ts != [] {
      AscendingIsSorted(ts[1..]);
      InsertKeepsSorted(ts[0], Ascending(ts[1..]));
    }
  }

  /** Going through sorted thresholds of which none was passed over, alerts stay in order. */
  lemma {:induction false} FireEachInOrder(s: State, p: Policy, ts: seq<real>)
    requires p.limit > 0.0 && Logged(s) && Ordered(s) && SortedUp(ts) && NoneSkipped(s, p.name, ts)
    ensures Ordered(FireEach(s, p, ts))
    decreases |ts|
  {
    if ts != [] {
      var s' := FireOne(s, p, ts[0]);
      FireOneEffect(s, p, ts[0]);
      if s' != s {
        forall i | 0 <= i < |s.alerts| && s.alerts[i].policy == p.name ensures s.alerts[i].threshold < ts[0] {
          assert Alerted(s, p.name, s.alerts[i].threshold);
          assert !Alerted(s, p.name, ts[0]);
        }
      }
      FireEachInOrder(s', p, ts[1..]);
    }
  }

  lemma NamesIdentify(ps: seq<Policy>, p: Policy, q: Policy)
    requires DistinctNames(ps) && p in ps && q in ps && p.name == q.name
    ensures p == q
  {
  }

  /** Once a policy is settled, no threshold of it has been passed over. */
  lemma SettledSkipsNone(s: State, p: Policy)
    requires DistinctNames(s.policies) && OnlyDue(s) && p in s.policies && p.limit > 0.0 && Settled(s, p)
    ensures NoneSkipped(s, p.name, p.thresholds)
  {
    forall t, u | t in p.thresholds && t < u && Alerted(s, p.name, u) ensures Alerted(s, p.name, t) {
      assert Due(s, p.name, u);
      var q :| q in s.policies && q.name == p.name && q.limit > 0.0 && u in q.thresholds && Reached(s.cost, q, u);
      NamesIdentify(s.policies, p, q);
    }
  }

  lemma FireKeepsInv(s: State, p: Policy)
    requires Inv(s) && s.alerting && p in s.policies
    ensures Inv(Fire(s, p))
  {
    var s' := Fire(s, p);
    FireEffect(s, p);
    if p.limit > 0.0 {
      AscendingIsSorted(p.thresholds);
      AscendingKeepsMembers(p.thresholds);
      FireEachInOrder(s, p, Ascending(p.thresholds));
      FireEachEffect(s, p, Ascending(p.thresholds));
      forall q | q in s'.policies && q.limit > 0.0 ensures NoneSkipped(s', q.name, q.thresholds) {
        if q.name == p.name {
          NamesIdentify(s.policies, p, q);
          SettledSkipsNone(s', p);
        } else {
          assert forall x :: Alerted(s', q.name, x) <==> Alerted(s, q.name, x);
        }
      }
    }
  }

  lemma {:induction false} FireAllKeepsInv(s: State, ps: seq<Policy>)
    requires Inv(s) && s.alerting && forall p :: p in ps ==> p in s.policies
    ensures Inv(FireAll(s, ps))
    decreases |ps|
  {
    if ps != [] {
      FireKeepsInv(s, ps[0]);
      FireEffect(s, ps[0]);
      FireAllKeepsInv(Fire(s, ps[0]), ps[1..]);
    }
  }

  lemma RatioGrows(a: real, b: real, limit: real)
    requires a <= b && limit > 0.0
    ensures a / limit <= b / limit
  {
  }

  /** Spending more keeps every alert due. */
  lemma CostGrowthKeepsDue(s: State, amount: real)
    requires OnlyDue(s) && amount >= 0.0
    ensures OnlyDue(s.(cost := s.cost + amount))
  {
    var s' := s.(cost := s.cost + amount);
    forall name, t | Alerted(s', name, t) ensures Due(s', name, t) {
      assert Alerted(s, name, t);
      var p :| p in s.policies && p.name == name && p.limit > 0.0 && t in p.thresholds && Reached(s.cost, p, t);
      RatioGrows(s.cost, s.cost + amount, p.limit);
      assert Reached(s'.cost, p, t);
    }
  }

  lemma {:induction false} VisitedAreThere(cost: real, ps: seq<Policy>)
    ensures forall p :: p in Visited(cost, ps) ==> p in ps
  {
    if ps != [] { VisitedAreThere(cost, ps[1..]); }
  }

  ghost predicate Allowed(s: State, e: Event) {
    match e
    case AddPolicy(p) => forall q :: q in s.policies ==> q.name != p.name
    case RecordCost(amount) => amount >= 0.0
    case Check => true
  }

  lemma AddKeepsInv(s: State, p: Policy)
    requires Inv(s) && Allowed(s, AddPolicy(p))
    ensures Inv(Step(s, AddPolicy(p)))
  {
    var s' := Step(s, AddPolicy(p));
    forall t ensures !Alerted(s, p.name, t) { assert !Due(s, p.name, t); }
    assert forall name, t :: Alerted(s', name, t) <==> Alerted(s, name, t);
    forall q | q in s'.policies && q.limit > 0.0 ensures NoneSkipped(s', q.name, q.thresholds) {
      if q in s.policies { assert NoneSkipped(s, q.name, q.thresholds); }
    }
    forall name, t | Alerted(s', name, t) ensures Due(s', name, t) {
      assert Alerted(s, name, t);
      var q :| q in s.policies && q.name == name && q.limit > 0.0 && t in q.thresholds && Reached(s.cost, q, t);
      assert q in s'.policies;
    }
  }

  /** After a recording the alerts sent so far are exactly the due ones. */
  ghost predicate Exact(s: State) {
    forall name, t :: Alerted(s, name, t) <==> Due(s, name, t)
  }

  lemma RecordMakesExact(s: State, amount: real)
    requires Inv(s) && s.alerting && amount >= 0.0
    ensures Inv(Step(s, RecordCost(amount))) && Exact(Step(s, RecordCost(amount))) && Step(s, RecordCost(amount)).alerting
  {
    var t := s.(cost := s.cost + amount);
    CostGrowthKeepsDue(s, amount);
    assert forall name, x :: Alerted(t, name, x) <==> Alerted(s, name, x);
    assert forall name :: FiredOf(t, name) == FiredOf(s, name);
    assert forall p :: p in t.policies && p.limit > 0.0 ==> NoneSkipped(s, p.name, p.thresholds) ==> NoneSkipped(t, p.name, p.thresholds);
    FireAllKeepsInv(t, t.policies);
    FireAllEffect(t, t.policies);
    var s' := FireAll(t, t.policies);
    forall name, x | Due(s', name, x) ensures Alerted(s', name, x) {
      var p :| p in s'.policies && p.name == name && p.limit > 0.0 && x in p.thresholds && Reached(s'.cost, p, x);
      assert Settled(s', p);
    }
  }

  lemma StepKeepsInv(s: State, e: Event)
    requires Inv(s) && s.alerting && Allowed(s, e)
    ensures Inv(Step(s, e)) && Step(s, e).alerting
    ensures e.RecordCost? ==> Exact(Step(s, e))
  {
    match e
    case AddPolicy(p) => AddKeepsInv(s, p);
    case RecordCost(amount) => RecordMakesExact(s, amount);
    case Check =>
      VisitedAreThere(s.cost, s.policies);
      FireAllEffect(s, Visited(s.cost, s.policies));
      FireAllKeepsInv(s, Visited(s.cost, s.policies));
  }

  ghost predicate IsRun(es: seq<Event>, ss: seq<State>) {
    && |ss| == |es| + 1 && ss[0] == State(true, [], map[], 0.0, [])
    && forall k :: 0 <= k < |es| ==> Allowed(ss[k], es[k]) && ss[k + 1] == Step(ss[k], es[k])
  }

  /** Alerting: over every run of additions, recordings and checks, no alert is sent twice, none
      before it is due, and those of one policy in ascending order; after every recording exactly the
      due ones have been sent. */
  lemma {:induction false} AlertsExact(es: seq<Event>, ss: seq<State>, k: nat)
    requires IsRun(es, ss) && k < |ss|
    ensures Inv(ss[k]) && ss[k].alerting
    ensures k > 0 && es[k - 1].RecordCost? ==> Exact(ss[k])
  {
    if k > 0 {
      AlertsExact(es, ss, k - 1);
      StepKeepsInv(ss[k - 1], es[k - 1]);
    }
  }

  // ---- the alerts in terms of what was added and recorded ----

  lemma ReachedFrom(cost: real, p: Policy, t: real)
    requires p.limit > 0.0
    ensures Reached(cost, p, t) <==> cost >= t * p.limit
  {
    assert cost == cost / p.limit * p.limit;
  }

  lemma ExceededFrom(cost: real, p: Policy)
    ensures Exceeded(cost, p) <==> 0.0 < p.limit <= cost
  {
    if p.limit > 0.0 { ReachedFrom(cost, p, 1.0); }
  }

  /** What was recorded so far, added up. */
  function Recorded(es: seq<Event>): real {
    if es == [] then 0.0
    else
      var e := es[|es| - 1];
      Recorded(es[..|es| - 1]) + if e.RecordCost? then e.amount else 0.0
  }

  /** An alert about a threshold of this policy, reached at this cost. */
  ghost predicate Honest(a: Alert, p: Policy, cost: real) {
    && a == Alert(p.name, a.threshold, cost, p.limit)
    && p.limit > 0.0 && a.threshold in p.thresholds && cost >= a.threshold * p.limit
  }

  lemma {:induction false} FireEachTells(s: State, p: Policy, ts: seq<real>)
    requires p.limit > 0.0 && forall t :: t in ts ==> t in p.thresholds
    ensures var s' := FireEach(s, p, ts);
            && s'.cost == s.cost && s'.policies == s.policies && s'.alerting == s.alerting && s.alerts <= s'.alerts
            && forall i :: |s.alerts| <= i < |s'.alerts| ==> Honest(s'.alerts[i], p, s.cost)
    decreases |ts|
  {
    if ts != [] {
      assert ts == [ts[0]] + ts[1..];
      ReachedFrom(s.cost, p, ts[0]);
      FireEachTells(FireOne(s, p, ts[0]), p, ts[1..]);
    }
  }

  lemma FireTells(s: State, p: Policy)
    ensures Fire(s, p).cost == s.cost && Fire(s, p).policies == s.policies && s.alerts <= Fire(s, p).alerts
    ensures forall i :: |s.alerts| <= i < |Fire(s, p).alerts| ==> Honest(Fire(s, p).alerts[i], p, s.cost)
  {
    if s.alerting && p.limit > 0.0 {
      AscendingKeepsMembers(p.thresholds);
      FireEachTells(s, p, Ascending(p.thresholds));
    }
  }

  lemma {:induction false} FireAllOnlyAdds(s: State, ps: seq<Policy>)
    ensures s.alerts <= FireAll(s, ps).alerts
    decreases |ps|
  {
    if ps != [] {
      FireTells(s, ps[0]);
      FireAllOnlyAdds(Fire(s, ps[0]), ps[1..]);
    }
  }

  /** Every alert sent while going through policies is about one of them, at the present cost. */
  lemma {:induction false} FireAllTells(s: State, ps: seq<Policy>, i: nat) returns (p: Policy)
    requires |s.alerts| <= i < |FireAll(s, ps).alerts|
    ensures p in ps && Honest(FireAll(s, ps).alerts[i], p, s.cost)
    decreases |ps|
  {
    var s' := Fire(s, ps[0]);
    FireTells(s, ps[0]);
    FireAllOnlyAdds(s', ps[1..]);
    if i < |s'.alerts| {
      p := ps[0];
    } else {
      p := FireAllTells(s', ps[1..], i);
    }
  }

  lemma {:induction false} FireAllKeepsRest(s: State, ps: seq<Policy>)
    ensures FireAll(s, ps).cost == s.cost && FireAll(s, ps).policies == s.policies
    decreases |ps|
  {
    if ps != [] {
      FireTells(s, ps[0]);
      FireAllKeepsRest(Fire(s, ps[0]), ps[1..]);
    }
  }

  lemma StepTotals(s: State, e: Event)
    ensures Step(s, e).cost == s.cost + if e.RecordCost? then e.amount else 0.0
    ensures Step(s, e).policies == s.policies + if e.AddPolicy? then [e.policy] else []
  {
    if e.RecordCost? {
      FireAllKeepsRest(s.(cost := s.cost + e.amount), s.policies);
    } else if e.Check? {
      FireAllKeepsRest(s, Visited(s.cost, s.policies));
    }
  }

  lemma RecordedNext(es: seq<Event>, k: nat)
    requires k < |es|
    ensures Recorded(es[..k + 1]) == Recorded(es[..k]) + if es[k].RecordCost? then es[k].amount else 0.0
    ensures es[..k + 1] == es[..k] + [es[k]]
  {
    assert es[..k + 1][..k] == es[..k];
  }

  /** Along every run the cost is what was recorded, and the policies are those that were added. */
  lemma {:induction false} StateTellsTheRun(es: seq<Event>, ss: seq<State>, k: nat)
    requires IsRun(es, ss) && k < |ss|
    ensures ss[k].cost == Recorded(es[..k])
    ensures forall p :: p in ss[k].policies <==> AddPolicy(p) in es[..k]
  {
    if k > 0 {
      StateTellsTheRun(es, ss, k - 1);
      StepTotals(ss[k - 1], es[k - 1]);
      RecordedNext(es, k - 1);
    }
  }

  lemma StepOnlyAdds(s: State, e: Event)
    ensures s.alerts <= Step(s, e).alerts
  {
    if e.RecordCost? {
      FireAllOnlyAdds(s.(cost := s.cost + e.amount), s.policies);
    } else if e.Check? {
      FireAllOnlyAdds(s, Visited(s.cost, s.policies));
    }
  }

  lemma StepTells(s: State, e: Event, i: nat) returns (p: Policy)
    requires |s.alerts| <= i < |Step(s, e).alerts|
    ensures p in s.policies && Honest(Step(s, e).alerts[i], p, Step(s, e).cost)
  {
    StepTotals(s, e);
    if e.RecordCost? {
      p := FireAllTells(s.(cost := s.cost + e.amount), s.policies, i);
    } else {
      p := FireAllTells(s, Visited(s.cost, s.policies), i);
      VisitedAreThere(s.cost, s.policies);
    }
  }

  /** A step takes no alert back, and a new one names a policy that was added, its limit, one of its
      thresholds, and as cost all that was recorded, which is at least threshold times limit. */
  lemma AlertTellsItsCost(es: seq<Event>, ss: seq<State>, k: nat, i: nat) returns (p: Policy)
    requires IsRun(es, ss) && k < |es| && |ss[k].alerts| <= i < |ss[k + 1].alerts|
    ensures ss[k].alerts <= ss[k + 1].alerts && AddPolicy(p) in es[..k]
    ensures var a, cost := ss[k + 1].alerts[i], Recorded(es[..k + 1]);
            && a == Alert(p.name, a.threshold, cost, p.limit)
            && p.limit > 0.0 && a.threshold in p.thresholds && cost >= a.threshold * p.limit
  {
    StateTellsTheRun(es, ss, k);
    StateTellsTheRun(es, ss, k + 1);
    StepOnlyAdds(ss[k], es[k]);
    p := StepTells(ss[k], es[k], i);
  }

  /** After a recording the alert of a threshold has been sent exactly when a policy with it was added
      and what was recorded has reached threshold times limit. */
  lemma AlertedExactlyWhen(es: seq<Event>, ss: seq<State>, k: nat, name: string, t: real)
    requires IsRun(es, ss) && 0 < k < |ss| && es[k - 1].RecordCost?
    ensures Alerted(ss[k], name, t) <==>
            exists p :: AddPolicy(p) in es[..k] && p.name == name && t in p.thresholds && p.limit > 0.0 &&
                        Recorded(es[..k]) >= t * p.limit
  {
    AlertsExact(es, ss, k);
    StateTellsTheRun(es, ss, k);
    forall p: Policy | p.limit > 0.0 ensures Reached(ss[k].cost, p, t) <==> ss[k].cost >= t * p.limit {
      ReachedFrom(ss[k].cost, p, t);
    }
  }

  lemma {:induction false} NoCallbackNoMarks(s: State, ps: seq<Policy>)
    requires !s.alerting
    ensures FireAll(s, ps) == s
    decreases |ps|
  {
    if ps != [] { NoCallbackNoMarks(s, ps[1..]); }
  }

  /** Without a callback nothing is sent, and a recording only adds to the cost. */
  lemma SilentWithoutCallback(s: State, e: Event)
    requires !s.alerting
    ensures Step(s, e).alerts == s.alerts && !Step(s, e).alerting
    ensures !e.AddPolicy? ==> Step(s, e) == s.(cost := s.cost + Recorded([e]))
  {
    assert Recorded([e][..0]) == 0.0;
    if e.RecordCost? {
      NoCallbackNoMarks(s.(cost := s.cost + e.amount), s.policies);
    } else if e.Check? {
      NoCallbackNoMarks(s, Visited(s.cost, s.policies));
    }
  }

  predicate Blocks(cost: real, p: Policy) {
    0.0 < p.limit <= cost && p.action.Block?
  }

  /** `Check` gets to the policies in order, up to and including the first that blocks. */
  lemma {:induction false} VisitedUntilBlocked(cost: real, ps: seq<Policy>)
    ensures var n := |Visited(cost, ps)|;
            && n <= |ps| && Visited(cost, ps) == ps[..n]
            && (forall i :: 0 <= i < n - 1 ==> !Blocks(cost, ps[i]))
            && (n < |ps| ==> n > 0 && Blocks(cost, ps[n - 1]))
  {
    if ps != [] {
      ExceededFrom(cost, ps[0]);
      VisitedUntilBlocked(cost, ps[1..]);
      assert ps == [ps[0]] + ps[1..];
    }
  }

  lemma VisitedBeforeBlock(cost: real, ps: seq<Policy>, i: nat)
    requires i < |ps| && forall j :: 0 <= j < i ==> !Blocks(cost, ps[j])
    ensures ps[i] in Visited(cost, ps)
  {
    VisitedUntilBlocked(cost, ps);
    assert Visited(cost, ps)[i] == ps[i];
  }

  lemma CheckSettles(s: State, p: Policy)
    requires Logged(s) && OnlyDue(s) && s.alerting && p in Visited(s.cost, s.policies)
    ensures Settled(Step(s, Check), p) && Step(s, Check).cost == s.cost
  {
    VisitedAreThere(s.cost, s.policies);
    FireAllEffect(s, Visited(s.cost, s.policies));
  }

  /** After a check every reached threshold of a policy has been alerted, unless a policy before it
      blocks. */
  lemma CheckAlertsUpToBlock(es: seq<Event>, ss: seq<State>, k: nat, i: nat, t: real)
    requires IsRun(es, ss) && k < |es| && es[k].Check? && i < |ss[k].policies|
    requires forall j :: 0 <= j < i ==> !Blocks(ss[k].cost, ss[k].policies[j])
    requires var p := ss[k].policies[i]; p.limit > 0.0 && t in p.thresholds && ss[k].cost >= t * p.limit
    ensures Alerted(ss[k + 1], ss[k].policies[i].name, t)
  {
    var s, p := ss[k], ss[k].policies[i];
    AlertsExact(es, ss, k);
    VisitedBeforeBlock(s.cost, s.policies, i);
    CheckSettles(s, p);
    ReachedFrom(s.cost, p, t);
  }

  // ---- what reusing a policy name breaks ----

  /** Adding a policy keeps the fired marks in line with the alerts sent exactly if no alert was sent
      under its name. */
  lemma AddKeepsLogExactlyForNewNames(s: State, p: Policy)
    requires Logged(s)
    ensures Logged(Step(s, AddPolicy(p))) <==> forall t :: !Alerted(s, p.name, t)
  {
    var s' := Step(s, AddPolicy(p));
    assert forall name, t :: Alerted(s', name, t) <==> Alerted(s, name, t);
    assert forall name :: FiredOf(s', name) == if name == p.name then {} else FiredOf(s, name);
  }

  ghost predicate SentSince(s: State, from: nat, name: string, t: real) {
    exists j :: from <= j < |s.alerts| && s.alerts[j].policy == name && s.alerts[j].threshold == t
  }

  /** A reached threshold that is not marked as fired is sent, after everything sent before. */
  lemma {:induction false} UnmarkedIsSent(s: State, p: Policy, ts: seq<real>, t: real, from: nat)
    requires p.limit > 0.0 && from <= |s.alerts| && (SentSince(s, from, p.name, t) || (t in ts && t !in FiredOf(s, p.name)))
    requires Reached(s.cost, p, t)
    ensures s.alerts <= FireEach(s, p, ts).alerts && SentSince(FireEach(s, p, ts), from, p.name, t)
    decreases |ts|
  {
    if ts != [] {
      var s' := FireOne(s, p, ts[0]);
      assert ts == [ts[0]] + ts[1..];
      if SentSince(s, from, p.name, t) {
        var j :| from <= j < |s.alerts| && s.alerts[j].policy == p.name && s.alerts[j].threshold == t;
        assert s'.alerts[j] == s.alerts[j];
      } else if ts[0] == t {
        assert s'.alerts[|s.alerts|].threshold == t;
      }
      UnmarkedIsSent(s', p, ts[1..], t, from);
    }
  }

  /** Not marked, or sent again since. */
  ghost predicate Outstanding(s: State, from: nat, name: string, t: real) {
    from <= |s.alerts| && (SentSince(s, from, name, t) || t !in FiredOf(s, name))
  }

  lemma {:induction false} FireEachKeepsOutstanding(s: State, q: Policy, ts: seq<real>, name: string, t: real, from: nat)
    requires q.limit > 0.0 && Outstanding(s, from, name, t)
    ensures s.alerts <= FireEach(s, q, ts).alerts && Outstanding(FireEach(s, q, ts), from, name, t)
    decreases |ts|
  {
    if ts != [] {
      var s' := FireOne(s, q, ts[0]);
      if SentSince(s, from, name, t) {
        var j :| from <= j < |s.alerts| && s.alerts[j].policy == name && s.alerts[j].threshold == t;
        assert s'.alerts[j] == s.alerts[j];
      } else if s' != s && q.name == name && ts[0] == t {
        assert s'.alerts[|s.alerts|] == Alert(q.name, t, s.cost, q.limit);
      }
      FireEachKeepsOutstanding(s', q, ts[1..], name, t, from);
    }
  }

  lemma {:induction false} FireEachKeepsCost(s: State, p: Policy, ts: seq<real>)
    requires p.limit > 0.0
    ensures FireEach(s, p, ts).cost == s.cost && FireEach(s, p, ts).alerting == s.alerting
    decreases |ts|
  {
    if ts != [] { FireEachKeepsCost(FireOne(s, p, ts[0]), p, ts[1..]); }
  }

  /** Going through the policies, a threshold of one of them that is reached and outstanding is sent. */
  lemma {:induction false} OutstandingIsSent(s: State, ps: seq<Policy>, p: Policy, t: real, from: nat)
    requires s.alerting && p.limit > 0.0 && t in p.thresholds && Reached(s.cost, p, t)
    requires Outstanding(s, from, p.name, t) && (p in ps || SentSince(s, from, p.name, t))
    ensures s.alerts <= FireAll(s, ps).alerts && SentSince(FireAll(s, ps), from, p.name, t)
    decreases |ps|
  {
    if ps != [] {
      var q, s' := ps[0], Fire(s, ps[0]);
      assert ps == [q] + ps[1..];
      if q.limit > 0.0 {
        FireEachKeepsOutstanding(s, q, Ascending(q.thresholds), p.name, t, from);
        FireEachKeepsCost(s, q, Ascending(q.thresholds));
        if q == p || SentSince(s, from, p.name, t) { OnePolicySends(s, q, p, t, from); }
      }
      OutstandingIsSent(s', ps[1..], p, t, from);
    }
  }

  lemma OnePolicySends(s: State, q: Policy, p: Policy, t: real, from: nat)
    requires s.alerting && q.limit > 0.0 && p.limit > 0.0 && t in p.thresholds && Reached(s.cost, p, t)
    requires Outstanding(s, from, p.name, t) && (q == p || SentSince(s, from, p.name, t))
    ensures SentSince(Fire(s, q), from, p.name, t)
  {
    if SentSince(s, from, p.name, t) {
      var j :| from <= j < |s.alerts| && s.alerts[j].policy == p.name && s.alerts[j].threshold == t;
      FireEachKeepsOutstanding(s, q, Ascending(q.thresholds), p.name, t, from);
      assert Fire(s, q).alerts[j] == s.alerts[j];
    } else {
      AscendingKeepsMembers(p.thresholds);
      UnmarkedIsSent(s, p, Ascending(p.thresholds), t, from);
    }
  }

  ghost predicate SentTwice(s: State, name: string, t: real) {
    exists i, j :: 0 <= i < j < |s.alerts| && s.alerts[i].policy == s.alerts[j].policy == name &&
                   s.alerts[i].threshold == s.alerts[j].threshold == t
  }

  /** A policy added under a name whose alert was already sent has it sent a second time by the next
      recording, even of nothing. */
  lemma ReaddedNameAlertsAgain(s: State, p: Policy, t: real)
    requires s.alerting && Alerted(s, p.name, t) && p.limit > 0.0 && t in p.thresholds && Reached(s.cost, p, t)
    ensures SentTwice(Step(Step(s, AddPolicy(p)), RecordCost(0.0)), p.name, t)
  {
    var added := Step(s, AddPolicy(p));
    var start := added.(cost := added.cost + 0.0);
    OutstandingIsSent(start, start.policies, p, t, |s.alerts|);
    var s' := Step(added, RecordCost(0.0));
    var i :| 0 <= i < |s.alerts| && s.alerts[i].policy == p.name && s.alerts[i].threshold == t;
    var j :| |s.alerts| <= j < |s'.alerts| && s'.alerts[j].policy == p.name && s'.alerts[j].threshold == t;
    assert s'.alerts[i] == s.alerts[i];
  }

  // ---- the verdict ----

  /** The most restrictive action among the exceeded policies, said without any order. */
  ghost predicate IsVerdict(cost: real, ps: seq<Policy>, a: Action) {
    if exists p :: p in ps && Exceeded(cost, p) && p.action.Block? then a == Block
    else if exists p :: p in ps && Exceeded(cost, p) && p.action.Downgrade? then a == Downgrade
    else a == Warn
  }

  lemma {:induction false} VerdictGeneral(cost: real, ps: seq<Policy>, so: Action)
    ensures if exists p :: p in ps && Exceeded(cost, p) && p.action.Block? then Verdict(cost, ps, so) == Block
            else if exists p :: p in ps && Exceeded(cost, p) && p.action.Downgrade? then Verdict(cost, ps, so) == Downgrade
            else Verdict(cost, ps, so) == so
  {
    if ps != [] {
      assert ps == [ps[0]] + ps[1..];
      VerdictGeneral(cost, ps[1..], so);
      VerdictGeneral(cost, ps[1..], Downgrade);
    }
  }

  /** `Check` answers the most restrictive action, whatever the order of the policies. */
  lemma VerdictIgnoresOrder(cost: real, ps: seq<Policy>, qs: seq<Policy>)
    requires multiset(ps) == multiset(qs)
    ensures IsVerdict(cost, ps, Verdict(cost, ps, Warn)) && Verdict(cost, ps, Warn) == Verdict(cost, qs, Warn)
  {
    VerdictGeneral(cost, ps, Warn);
    VerdictGeneral(cost, qs, Warn);
    forall p ensures p in ps <==> p in qs { assert p in ps <==> p in multiset(ps); }
  }

  /** A check blocks exactly when the cost has come to the limit of a blocking policy, downgrades
      exactly when it has not but has come to that of a downgrading one, and otherwise warns. */
  lemma VerdictExactlyWhen(cost: real, ps: seq<Policy>)
    ensures Verdict(cost, ps, Warn) == Block <==> exists p :: p in ps && 0.0 < p.limit <= cost && p.action.Block?
    ensures Verdict(cost, ps, Warn) == Downgrade <==>
            && !(exists p :: p in ps && 0.0 < p.limit <= cost && p.action.Block?)
            && exists p :: p in ps && 0.0 < p.limit <= cost && p.action.Downgrade?
    ensures Verdict(cost, ps, Warn) in {Block, Downgrade, Warn}
  {
    VerdictGeneral(cost, ps, Warn);
    forall p ensures Exceeded(cost, p) <==> 0.0 < p.limit <= cost { ExceededFrom(cost, p); }
  }

  // ---- the remaining budget ----

  function MinLimit(so: real, ps: seq<Policy>): real
    decreases |ps|
  {
    if ps == [] then so
    else MinLimit(if 0.0 < ps[0].limit < so then ps[0].limit else so, ps[1..])
  }

  function Remaining(cost: real, ps: seq<Policy>): real {
    if ps == [] then 0.0
    else
      var left := MinLimit(ps[0].limit, ps[1..]) - cost;
      if left < 0.0 then 0.0 else left
  }

  lemma {:induction false} MinLimitAtMost(so: real, ps: seq<Policy>, x: real)
    ensures MinLimit(so, ps) <= x <==> so <= x || exists p :: p in ps && 0.0 < p.limit <= x && p.limit < so
    decreases |ps|
  {
    if ps != [] {
      assert ps == [ps[0]] + ps[1..];
      MinLimitAtMost(if 0.0 < ps[0].limit < so then ps[0].limit else so, ps[1..], x);
    }
  }

  /** Nothing remains exactly when there is no policy, the first policy's limit is reached whatever
      its sign, or a later positive limit is reached. */
  lemma RemainingZeroExactlyWhen(cost: real, ps: seq<Policy>)
    ensures Remaining(cost, ps) >= 0.0
    ensures Remaining(cost, ps) == 0.0 <==>
            ps == [] || ps[0].limit <= cost || exists i :: 1 <= i < |ps| && 0.0 < ps[i].limit <= cost
  {
    if ps != [] {
      MinLimitAtMost(ps[0].limit, ps[1..], cost);
      if i :| 1 <= i < |ps| && 0.0 < ps[i].limit <= cost { assert ps[1..][i - 1] == ps[i]; }
      if p :| p in ps[1..] && 0.0 < p.limit <= cost && p.limit < ps[0].limit {
        var i :| 0 <= i < |ps[1..]| && ps[1..][i] == p;
        assert ps[i + 1] == p;
      }
    }
  }

  /** The limits that count: the first one, and every other that is positive. */
  ghost predicate Counts(ps: seq<Policy>, i: nat) {
    i < |ps| && (i == 0 || ps[i].limit > 0.0)
  }

  lemma {:induction false} MinLimitIsLeast(so: real, ps: seq<Policy>)
    ensures MinLimit(so, ps) == so || exists i :: 0 <= i < |ps| && ps[i].limit > 0.0 && MinLimit(so, ps) == ps[i].limit
    ensures MinLimit(so, ps) <= so && forall i :: 0 <= i < |ps| && ps[i].limit > 0.0 ==> MinLimit(so, ps) <= ps[i].limit
    decreases |ps|
  {
    if ps != [] {
      var next := if 0.0 < ps[0].limit < so then ps[0].limit else so;
      MinLimitIsLeast(next, ps[1..]);
      if i :| 0 <= i < |ps[1..]| && ps[1..][i].limit > 0.0 && MinLimit(next, ps[1..]) == ps[1..][i].limit {
        assert ps[i + 1] == ps[1..][i];
      }
      forall i | 0 <= i < |ps| && ps[i].limit > 0.0 ensures MinLimit(so, ps) <= ps[i].limit {
        if i > 0 { assert ps[1..][i - 1] == ps[i]; }
      }
    }
  }

  /** What remains is measured against the least limit that counts. */
  lemma RemainingIsTightest(cost: real, ps: seq<Policy>) returns (i: nat)
    requires ps != []
    ensures Counts(ps, i) && forall j: nat :: Counts(ps, j) ==> ps[i].limit <= ps[j].limit
    ensures Remaining(cost, ps) == if ps[i].limit < cost then 0.0 else ps[i].limit - cost
  {
    MinLimitIsLeast(ps[0].limit, ps[1..]);
    var least := MinLimit(ps[0].limit, ps[1..]);
    forall j: nat | Counts(ps, j) ensures least <= ps[j].limit {
      if j > 0 { assert ps[1..][j - 1] == ps[j]; }
    }
    if least == ps[0].limit {
      i := 0;
    } else {
      var k :| 0 <= k < |ps[1..]| && ps[1..][k].limit > 0.0 && least == ps[1..][k].limit;
      i := k + 1;
    }
  }

  /** A first policy without a limit hides what a second one leaves: limits 0 and 10 at cost 1. */
  lemma UnlimitedFirstPolicyHidesBudget(a: Policy, b: Policy)
    requires a.limit == 0.0 && b.limit == 10.0
    ensures Remaining(1.0, [a, b]) == 0.0 && Remaining(1.0, [b, a]) == 9.0 && !Exceeded(1.0, a) && !Exceeded(1.0, b)
  {
    assert [a, b][1..] == [b] && [b, a][1..] == [a] && [b][1..] == [] && [a][1..] == [];
    assert MinLimit(0.0, [b]) == MinLimit(0.0, []) && MinLimit(10.0, [a]) == MinLimit(10.0, []);
  }

  /** With a non-empty list of positive limits, nothing remains exactly when some limit is reached. */
  lemma RemainingZeroWhenPositive(cost: real, ps: seq<Policy>)
    requires ps != [] && forall p :: p in ps ==> p.limit > 0.0
    ensures Remaining(cost, ps) == 0.0 <==> exists p :: p in ps && p.limit <= cost
  {
    RemainingZeroExactlyWhen(cost, ps);
    if p :| p in ps && p.limit <= cost {
      var i :| 0 <= i < |ps| && ps[i] == p;
      if i > 0 { assert 1 <= i < |ps| && 0.0 < ps[i].limit <= cost; }
    }
    if i :| 1 <= i < |ps| && 0.0 < ps[i].limit <= cost { assert ps[i] in ps; }
    assert ps[0] in ps;
  }

  /** `BudgetEnforcer` without an external tracker. */
  class Enforcer {
    const alerting: bool
    var policies: seq<Policy>
    var fired: map<string, set<real>>
    var cost: real
    ghost var alerts: seq<Alert>

    ghost function Contents(): State
      reads this
    {
      State(alerting, policies, fired, cost, alerts)
    }

    constructor (alerting: bool)
      ensures Contents() == State(alerting, [], map[], 0.0, [])
    {
      this.alerting := alerting;
      policies, fired, cost, alerts := [], map[], 0.0, [];
    }

    method AddOne(p: Policy)
      modifies this
      ensures Contents() == Step(old(Contents()), AddPolicy(p))
    {
      policies := policies + [p];
      fired := fired[p.name := {}];
    }

    method FireAlerts(p: Policy)
      modifies this`fired, this`alerts
      ensures Contents() == Fire(old(Contents()), p)
    {
      if !alerting || p.limit <= 0.0 || |p.thresholds| == 0 { return; }
      var sorted := Ascending(p.thresholds);
      var i := 0;
      while i < |sorted|
        invariant i <= |sorted| && cost == old(cost)
        invariant FireEach(Contents(), p, sorted[i..]) == FireEach(old(Contents()), p, sorted)
      {
        var t := sorted[i];
        assert sorted[i..][1..] == sorted[i + 1..];
        if cost / p.limit >= t {
          var done := if p.name in fired then fired[p.name] else {};
          if t !in done {
            fired := fired[p.name := done + {t}];
            alerts := alerts + [Alert(p.name, t, cost, p.limit)];
          }
        }
        i := i + 1;
      }
    }

    method Record(amount: real)
      modifies this
      ensures Contents() == Step(old(Contents()), RecordCost(amount))
    {
      cost := cost + amount;
      ghost var start := Contents();
      var i := 0;
      while i < |policies|
        invariant i <= |policies| && policies == old(policies) && cost == old(cost) + amount
        invariant FireAll(Contents(), policies[i..]) == FireAll(start, start.policies)
      {
        assert policies[i..][1..] == policies[i + 1..];
        FireAlerts(policies[i]);
        i := i + 1;
      }
    }

    method Evaluate() returns (action: Action)
      modifies this
      ensures Contents() == Step(old(Contents()), Check)
      ensures action == Verdict(cost, policies, Warn)
      ensures action == Block <==> exists p :: p in policies && 0.0 < p.limit <= cost && p.action.Block?
    {
      VerdictExactlyWhen(cost, policies);
      action := Warn;
      var i := 0;
      while i < |policies|
        invariant i <= |policies| && policies == old(policies) && cost == old(cost)
        invariant FireAll(Contents(), Visited(cost, policies[i..])) == Step(old(Contents()), Check)
        invariant Verdict(cost, policies[i..], action) == Verdict(cost, policies, Warn)
      {
        var p := policies[i];
        assert policies[i..][1..] == policies[i + 1..];
        if p.limit > 0.0 {
          FireAlerts(p);
          if cost / p.limit >= 1.0 {
            if p.action.Block? { return Block; }
            if p.action.Downgrade? { action := Downgrade; }
          }
        }
        i := i + 1;
      }
    }

    method RemainingBudget() returns (left: real)
      ensures left == Remaining(cost, policies)
    {
      if |policies| == 0 { return 0.0; }
      var least := policies[0].limit;
      var i := 1;
      while i < |policies|
        invariant 1 <= i <= |policies|
        invariant MinLimit(least, policies[i..]) == MinLimit(policies[0].limit, policies[1..])
      {
        assert policies[i..][1..] == policies[i + 1..];
        if policies[i].limit > 0.0 && policies[i].limit < least { least := policies[i].limit; }
        i := i + 1;
      }
      left := least - cost;
      if left < 0.0 { left := 0.0; }
    }
  }
}

/** The alerts of `BudgetEnforcer` (`finops/enforcement.go`) when its calls overlap. `RecordCost` adds,
    reads, marks and calls back in separate critical sections, and every one of them is a step here. */
module BudgetAlerts {
  import opened BudgetEnforcement

  /** A threshold of a policy that a call has yet to look at. */
  type Item = (Policy, real)

  /** Where a call is: between adding its amount and reading the total, going through thresholds with
      the total it read, or about to call back after marking a threshold. */
  datatype Call = Adding | Firing(todo: seq<Item>, cost: real) | Calling(alert: Alert, todo: seq<Item>, cost: real)

  /** `unseen` are the names of the policies added since the total was last read by a recording. */
  datatype State = State(
    policies: seq<Policy>, fired: map<string, set<real>>, cost: real, unseen: set<string>,
    calls: seq<Call>, alerts: seq<Alert>)

  datatype Event = Add(policy: Policy) | Record(amount: real) | Read(c: nat) | Check | Mark(c: nat) | Deliver(c: nat)

  ghost predicate Init(s: State) {
    s == State.State([], map[], 0.0, {}, [], [])
  }

  function Marks(fired: map<string, set<real>>, name: string): set<real> {
    if name in fired then fired[name] else {}
  }

  function ItemsOf(p: Policy, ts: seq<real>): (items: seq<Item>)
    ensures |items| == |ts| && forall i :: 0 <= i < |ts| ==> items[i] == (p, ts[i])
  {
    seq(|ts|, i requires 0 <= i < |ts| => (p, ts[i]))
  }

  /** The thresholds a call goes through, policy by policy and ascending within each. */
  function Todo(ps: seq<Policy>): seq<Item> {
    if ps == [] then []
    else (if ps[0].limit <= 0.0 then [] else ItemsOf(ps[0], Ascending(ps[0].thresholds))) + Todo(ps[1..])
  }

  /** Names are not reused and amounts are not negative. */
  ghost predicate Enabled(s: State, e: Event) {
    match e
    case Add(p) => forall q :: q in s.policies ==> q.name != p.name
    case Record(amount) => amount >= 0.0
    case Read(c) => c < |s.calls| && s.calls[c].Adding?
    case Check => true
    case Mark(c) => c < |s.calls| && s.calls[c].Firing? && s.calls[c].todo != [] && s.calls[c].todo[0].0.limit > 0.0
    case Deliver(c) => c < |s.calls| && s.calls[c].Calling?
  }

  /** One threshold is looked at: it is marked, for a later callback, if reached and not yet marked. */
  function Marked(s: State, c: nat): State
    requires Enabled(s, Mark(c))
  {
    var call := s.calls[c];
    var (p, t) := call.todo[0];
    if Reached(call.cost, p, t) && t !in Marks(s.fired, p.name) then
      s.(fired := s.fired[p.name := Marks(s.fired, p.name) + {t}],
         calls := s.calls[c := Calling(Alert(p.name, t, call.cost, p.limit), call.todo[1..], call.cost)])
    else s.(calls := s.calls[c := Firing(call.todo[1..], call.cost)])
  }

  function Step(s: State, e: Event): State
    requires Enabled(s, e)
  {
    match e
    case Add(p) => s.(policies := s.policies + [p], fired := s.fired[p.name := {}], unseen := s.unseen + {p.name})
    case Record(amount) => s.(cost := s.cost + amount, calls := s.calls + [Adding])
    case Read(c) => s.(calls := s.calls[c := Firing(Todo(s.policies), s.cost)], unseen := {})
    case Check => s.(calls := s.calls + [Firing(Todo(Visited(s.cost, s.policies)), s.cost)])
    case Mark(c) => Marked(s, c)
    case Deliver(c) =>
      var call := s.calls[c];
      s.(calls := s.calls[c := Firing(call.todo, call.cost)], alerts := s.alerts + [call.alert])
  }

  // ---- the invariant ----

  ghost predicate About(a: Alert, name: string, t: real) {
    a.policy == name && a.threshold == t
  }

  ghost predicate Delivered(s: State, name: string, t: real) {
    exists i :: 0 <= i < |s.alerts| && About(s.alerts[i], name, t)
  }

  ghost predicate InHand(s: State, c: int, name: string, t: real) {
    0 <= c < |s.calls| && s.calls[c].Calling? && About(s.calls[c].alert, name, t)
  }

  ghost predicate Sensible(s: State, item: Item) {
    item.0 in s.policies && item.0.limit > 0.0 && item.1 in item.0.thresholds
  }

  /** Calls look at thresholds of known policies with a total that is not beyond the present one. */
  ghost predicate CallsSensible(s: State) {
    forall c :: 0 <= c < |s.calls| && !s.calls[c].Adding? ==>
      s.calls[c].cost <= s.cost && forall item :: item in s.calls[c].todo ==> Sensible(s, item)
  }

  /** A policy of this name has a positive limit and the total has reached the threshold. */
  ghost predicate DueBy(s: State, p: Policy, name: string, t: real) {
    p in s.policies && p.name == name && p.limit > 0.0 && t in p.thresholds && Reached(s.cost, p, t)
  }

  ghost predicate MarksDue(s: State) {
    forall name, t :: t in Marks(s.fired, name) ==> exists p :: DueBy(s, p, name, t)
  }

  /** A marked threshold is in one place: delivered, or in the hand of one call. */
  ghost predicate Once(s: State) {
    && (forall name, t :: t in Marks(s.fired, name) <==> Delivered(s, name, t) || exists c :: InHand(s, c, name, t))
    && (forall i, j :: 0 <= i < j < |s.alerts| ==> !About(s.alerts[i], s.alerts[j].policy, s.alerts[j].threshold))
    && (forall c, d, name, t :: InHand(s, c, name, t) && InHand(s, d, name, t) ==> c == d)
    && (forall c, name, t :: InHand(s, c, name, t) ==> !Delivered(s, name, t))
  }

  /** Some call will still look at the threshold with a total that reaches it. */
  ghost predicate Awaited(s: State, c: int, p: Policy, t: real)
    requires p.limit > 0.0
  {
    0 <= c < |s.calls| && (s.calls[c].Adding? || ((p, t) in s.calls[c].todo && Reached(s.calls[c].cost, p, t)))
  }

  /** Every reached threshold of a policy that a recording has seen is marked or will be looked at. */
  ghost predicate Covered(s: State) {
    forall p: Policy, t :: DueBy(s, p, p.name, t) && p.name !in s.unseen ==>
      t in Marks(s.fired, p.name) || exists c :: Awaited(s, c, p, t)
  }

  ghost predicate NamesDiffer(s: State) {
    forall p, q :: p in s.policies && q in s.policies && p.name == q.name ==> p == q
  }

  ghost predicate Inv(s: State) {
    NamesDiffer(s) && CallsSensible(s) && MarksDue(s) && Once(s) && Covered(s)
  }

  // ---- what the thresholds of a call are ----

  lemma {:induction false} TodoMembers(ps: seq<Policy>)
    ensures forall p, t :: (p, t) in Todo(ps) <==> p in ps && p.limit > 0.0 && t in p.thresholds
  {
    if ps != [] {
      TodoMembers(ps[1..]);
      AscendingKeepsMembers(ps[0].thresholds);
      assert ps == [ps[0]] + ps[1..];
      var items := ItemsOf(ps[0], Ascending(ps[0].thresholds));
      forall p, t ensures (p, t) in items <==> p == ps[0] && t in Ascending(ps[0].thresholds) {
        if p == ps[0] && t in Ascending(p.thresholds) {
          var i :| 0 <= i < |items| && Ascending(p.thresholds)[i] == t;
          assert items[i] == (p, t);
        }
      }
    }
  }

  lemma TodoSensible(s: State, ps: seq<Policy>)
    requires forall p :: p in ps ==> p in s.policies
    ensures forall item :: item in Todo(ps) ==> Sensible(s, item)
  {
    TodoMembers(ps);
    forall item | item in Todo(ps) ensures Sensible(s, item) {
      var (p, t) := item;
      assert (p, t) in Todo(ps);
    }
  }

  lemma DueGrows(s: State, s': State, p: Policy, name: string, t: real)
    requires DueBy(s, p, name, t) && s.cost <= s'.cost && p in s'.policies
    ensures DueBy(s', p, name, t)
  {
    RatioGrows(s.cost, s'.cost, p.limit);
  }

  // ---- every step keeps it ----

  /** When marks, callbacks in hand and deliveries stay, each threshold stays in one place. */
  lemma SamePlaces(s: State, s': State)
    requires Once(s) && s'.alerts == s.alerts
    requires forall name :: Marks(s'.fired, name) == Marks(s.fired, name)
    requires forall c, name, t :: InHand(s', c, name, t) <==> InHand(s, c, name, t)
    ensures Once(s')
  {
    assert forall name, t :: Delivered(s', name, t) <==> Delivered(s, name, t);
  }

  lemma AddKeepsInv(s: State, p: Policy)
    requires Inv(s) && Enabled(s, Add(p))
    ensures Inv(Step(s, Add(p)))
  {
    var s' := Step(s, Add(p));
    forall t ensures t !in Marks(s.fired, p.name) {
      assert forall q :: !DueBy(s, q, p.name, t);
    }
    assert forall name :: Marks(s'.fired, name) == Marks(s.fired, name);
    SamePlaces(s, s');
    forall name, t | t in Marks(s'.fired, name) ensures exists q :: DueBy(s', q, name, t) {
      var q :| DueBy(s, q, name, t);
      DueGrows(s, s', q, name, t);
    }
    forall q: Policy, t | DueBy(s', q, q.name, t) && q.name !in s'.unseen
      ensures t in Marks(s'.fired, q.name) || exists c :: Awaited(s', c, q, t)
    {
      assert DueBy(s, q, q.name, t);
      if c :| Awaited(s, c, q, t) { assert Awaited(s', c, q, t); }
    }
  }

  lemma RecordKeepsInv(s: State, amount: real)
    requires Inv(s) && Enabled(s, Record(amount))
    ensures Inv(Step(s, Record(amount)))
  {
    var s' := Step(s, Record(amount));
    SamePlaces(s, s');
    forall name, t | t in Marks(s'.fired, name) ensures exists q :: DueBy(s', q, name, t) {
      var q :| DueBy(s, q, name, t);
      DueGrows(s, s', q, name, t);
    }
    forall q: Policy, t | DueBy(s', q, q.name, t) ensures exists c :: Awaited(s', c, q, t) {
      assert Awaited(s', |s.calls|, q, t);
    }
  }

  /** A step that changes neither policies nor marks nor the total keeps marked thresholds due. */
  lemma StillDue(s: State, s': State)
    requires MarksDue(s) && s'.policies == s.policies && s'.fired == s.fired && s'.cost == s.cost
    ensures MarksDue(s')
  {
    forall name, t | t in Marks(s'.fired, name) ensures exists q :: DueBy(s', q, name, t) {
      var q :| DueBy(s, q, name, t);
      assert DueBy(s', q, name, t);
    }
  }

  lemma ReadKeepsInv(s: State, c: nat)
    requires Inv(s) && Enabled(s, Read(c))
    ensures Inv(Step(s, Read(c)))
  {
    var s' := Step(s, Read(c));
    SamePlaces(s, s');
    StillDue(s, s');
    TodoMembers(s.policies);
    TodoSensible(s, s.policies);
    forall q: Policy, t | DueBy(s', q, q.name, t) ensures exists d :: Awaited(s', d, q, t) {
      assert Awaited(s', c, q, t);
    }
  }

  lemma CheckKeepsInv(s: State)
    requires Inv(s)
    ensures Inv(Step(s, Event.Check))
  {
    var s' := Step(s, Event.Check);
    SamePlaces(s, s');
    StillDue(s, s');
    VisitedAreThere(s.cost, s.policies);
    TodoSensible(s, Visited(s.cost, s.policies));
    forall q: Policy, t | DueBy(s', q, q.name, t) && q.name !in s'.unseen
      ensures t in Marks(s'.fired, q.name) || exists c :: Awaited(s', c, q, t)
    {
      assert DueBy(s, q, q.name, t);
      if c :| Awaited(s, c, q, t) { assert Awaited(s', c, q, t); }
    }
  }

  lemma MarkKeepsCalls(s: State, c: nat)
    requires NamesDiffer(s) && CallsSensible(s) && MarksDue(s) && Enabled(s, Mark(c))
    ensures NamesDiffer(Marked(s, c)) && CallsSensible(Marked(s, c)) && MarksDue(Marked(s, c))
  {
    var s' := Marked(s, c);
    var (p, t) := s.calls[c].todo[0];
    var todo := s.calls[c].todo;
    assert todo[0] in todo && Sensible(s, todo[0]);
    assert forall item :: item in todo[1..] ==> item in todo;
    forall name, u | u in Marks(s'.fired, name) ensures exists q :: DueBy(s', q, name, u) {
      if u in Marks(s.fired, name) {
        var q :| DueBy(s, q, name, u);
        assert DueBy(s', q, name, u);
      } else {
        RatioGrows(s.calls[c].cost, s.cost, p.limit);
        assert DueBy(s', p, name, u);
      }
    }
  }

  lemma MarkKeepsOnce(s: State, c: nat)
    requires Once(s) && Enabled(s, Mark(c))
    ensures Once(Marked(s, c))
  {
    var s' := Marked(s, c);
    var (p, t) := s.calls[c].todo[0];
    assert forall name, u :: Delivered(s', name, u) <==> Delivered(s, name, u);
    if s'.calls[c].Calling? {
      assert forall d, name, u :: InHand(s', d, name, u) <==> InHand(s, d, name, u) || (d == c && name == p.name && u == t);
      assert forall name, u :: u in Marks(s'.fired, name) <==> u in Marks(s.fired, name) || (name == p.name && u == t);
      assert InHand(s', c, p.name, t);
      MarkPlaces(s, s', c, p.name, t);
    } else {
      assert forall d, name, u :: InHand(s', d, name, u) <==> InHand(s, d, name, u);
      SamePlaces(s, s');
    }
  }

  lemma MarkPlaces(s: State, s': State, c: nat, n: string, t: real)
    requires Once(s) && s'.alerts == s.alerts && t !in Marks(s.fired, n) && InHand(s', c, n, t)
    requires forall name, u :: Delivered(s', name, u) <==> Delivered(s, name, u)
    requires forall d, name, u :: InHand(s', d, name, u) <==> InHand(s, d, name, u) || (d == c && name == n && u == t)
    requires forall name, u :: u in Marks(s'.fired, name) <==> u in Marks(s.fired, name) || (name == n && u == t)
    ensures Once(s')
  {
    forall name, u
      ensures u in Marks(s'.fired, name) <==> Delivered(s', name, u) || exists d :: InHand(s', d, name, u)
    {
      if d :| InHand(s, d, name, u) { assert InHand(s', d, name, u); }
      if name == n && u == t { assert InHand(s', c, name, u); }
    }
  }

  lemma MarkKeepsCovered(s: State, c: nat)
    requires Covered(s) && Enabled(s, Mark(c))
    ensures Covered(Marked(s, c))
  {
    var s' := Marked(s, c);
    var call := s.calls[c];
    assert call.todo == [call.todo[0]] + call.todo[1..];
    forall q: Policy, u | DueBy(s', q, q.name, u) && q.name !in s'.unseen
      ensures u in Marks(s'.fired, q.name) || exists d :: Awaited(s', d, q, u)
    {
      assert DueBy(s, q, q.name, u);
      if d :| Awaited(s, d, q, u) {
        if d == c && (q, u) == call.todo[0] {
          assert u in Marks(s'.fired, q.name);
        } else {
          assert Awaited(s', d, q, u);
        }
      }
    }
  }

  lemma DeliverKeepsOnce(s: State, c: nat)
    requires Once(s) && Enabled(s, Deliver(c))
    ensures Once(Step(s, Deliver(c)))
  {
    var s' := Step(s, Deliver(c));
    var a := s.calls[c].alert;
    assert InHand(s, c, a.policy, a.threshold);
    forall name, t ensures Delivered(s', name, t) <==> Delivered(s, name, t) || About(a, name, t) {
      if Delivered(s, name, t) {
        var i :| 0 <= i < |s.alerts| && About(s.alerts[i], name, t);
        assert s'.alerts[i] == s.alerts[i];
      }
      if About(a, name, t) { assert s'.alerts[|s.alerts|] == a; }
    }
    assert forall d, name, t :: InHand(s', d, name, t) <==> InHand(s, d, name, t) && d != c;
    DeliverPlaces(s, s', c);
  }

  lemma DeliverPlaces(s: State, s': State, c: nat)
    requires Once(s) && c < |s.calls| && s.calls[c].Calling? && s'.alerts == s.alerts + [s.calls[c].alert] && s'.fired == s.fired
    requires forall name, t :: Delivered(s', name, t) <==> Delivered(s, name, t) || About(s.calls[c].alert, name, t)
    requires forall d, name, t :: InHand(s', d, name, t) <==> InHand(s, d, name, t) && d != c
    ensures Once(s')
  {
    var a := s.calls[c].alert;
    assert InHand(s, c, a.policy, a.threshold);
    forall name, t
      ensures t in Marks(s'.fired, name) <==> Delivered(s', name, t) || exists d :: InHand(s', d, name, t)
    {
      if d :| InHand(s, d, name, t) {
        if d != c { assert InHand(s', d, name, t); }
      }
    }
    forall i, j | 0 <= i < j < |s'.alerts| ensures !About(s'.alerts[i], s'.alerts[j].policy, s'.alerts[j].threshold) {
      if j == |s.alerts| { assert !Delivered(s, a.policy, a.threshold); }
    }
  }

  lemma DeliverKeepsInv(s: State, c: nat)
    requires Inv(s) && Enabled(s, Deliver(c))
    ensures Inv(Step(s, Deliver(c)))
  {
    var s' := Step(s, Deliver(c));
    StillDue(s, s');
    DeliverKeepsOnce(s, c);
    forall q: Policy, t | DueBy(s', q, q.name, t) && q.name !in s'.unseen
      ensures t in Marks(s'.fired, q.name) || exists d :: Awaited(s', d, q, t)
    {
      assert DueBy(s, q, q.name, t);
      if d :| Awaited(s, d, q, t) { assert Awaited(s', d, q, t); }
    }
  }

  lemma StepKeepsInv(s: State, e: Event)
    requires Inv(s) && Enabled(s, e)
    ensures Inv(Step(s, e))
  {
    match e
    case Add(p) => AddKeepsInv(s, p);
    case Record(amount) => RecordKeepsInv(s, amount);
    case Read(c) => ReadKeepsInv(s, c);
    case Check => CheckKeepsInv(s);
    case Mark(c) =>
      MarkKeepsCalls(s, c);
      MarkKeepsOnce(s, c);
      MarkKeepsCovered(s, c);
    case Deliver(c) => DeliverKeepsInv(s, c);
  }

  // ---- runs ----

  ghost predicate IsRun(es: seq<Event>, ss: seq<State>) {
    && |ss| == |es| + 1 && Init(ss[0])
    && forall k :: 0 <= k < |es| ==> Enabled(ss[k], es[k]) && ss[k + 1] == Step(ss[k], es[k])
  }

  lemma {:induction false} InvAlongRun(es: seq<Event>, ss: seq<State>, k: nat)
    requires IsRun(es, ss) && k < |ss|
    ensures Inv(ss[k])
  {
    if k > 0 {
      InvAlongRun(es, ss, k - 1);
      StepKeepsInv(ss[k - 1], es[k - 1]);
    }
  }

  /** However the calls overlap, no alert is given twice and none before its threshold is reached. */
  lemma AlertedAtMostOnce(es: seq<Event>, ss: seq<State>, k: nat, i: nat, j: nat)
    requires IsRun(es, ss) && k < |ss| && i < |ss[k].alerts| && j < |ss[k].alerts|
    ensures exists p :: DueBy(ss[k], p, ss[k].alerts[i].policy, ss[k].alerts[i].threshold)
    ensures About(ss[k].alerts[i], ss[k].alerts[j].policy, ss[k].alerts[j].threshold) ==> i == j
  {
    InvAlongRun(es, ss, k);
    var s := ss[k];
    assert Delivered(s, s.alerts[i].policy, s.alerts[i].threshold);
    assert s.alerts[i].threshold in Marks(s.fired, s.alerts[i].policy);
  }

  /** No call is in progress. */
  ghost predicate Quiet(s: State) {
    forall c :: 0 <= c < |s.calls| ==> s.calls[c].Firing? && s.calls[c].todo == []
  }

  lemma NothingAwaited(s: State, p: Policy, t: real)
    requires Quiet(s) && p.limit > 0.0
    ensures forall c :: !Awaited(s, c, p, t)
  {
  }

  lemma QuietIsExact(s: State, p: Policy, t: real)
    requires Inv(s) && Quiet(s) && p in s.policies && p.name !in s.unseen
    ensures Delivered(s, p.name, t) <==> DueBy(s, p, p.name, t)
  {
    if Delivered(s, p.name, t) {
      var q :| DueBy(s, q, p.name, t);
    }
    assert forall c :: !InHand(s, c, p.name, t);
    if DueBy(s, p, p.name, t) {
      NothingAwaited(s, p, t);
      assert t in Marks(s.fired, p.name);
    }
  }

  /** Whenever no call is in progress, the alerts given for a policy that a recording has seen are
      exactly those of its thresholds that the total has reached. */
  lemma ExactWhenQuiet(es: seq<Event>, ss: seq<State>, k: nat, p: Policy, t: real)
    requires IsRun(es, ss) && k < |ss| && Quiet(ss[k]) && p in ss[k].policies && p.name !in ss[k].unseen
    ensures Delivered(ss[k], p.name, t) <==> DueBy(ss[k], p, p.name, t)
  {
    InvAlongRun(es, ss, k);
    QuietIsExact(ss[k], p, t);
  }

  // ---- the alerts in terms of what was added and recorded ----

  /** What was recorded so far, added up. */
  function Spent(es: seq<Event>): real {
    if es == [] then 0.0
    else
      var e := es[|es| - 1];
      Spent(es[..|es| - 1]) + if e.Record? then e.amount else 0.0
  }

  lemma StepTotals(s: State, e: Event)
    requires Enabled(s, e)
    ensures Step(s, e).cost == s.cost + if e.Record? then e.amount else 0.0
    ensures Step(s, e).policies == s.policies + if e.Add? then [e.policy] else []
  {
  }

  lemma SpentNext(es: seq<Event>, k: nat)
    requires k < |es|
    ensures Spent(es[..k + 1]) == Spent(es[..k]) + if es[k].Record? then es[k].amount else 0.0
    ensures es[..k + 1] == es[..k] + [es[k]]
  {
    assert es[..k + 1][..k] == es[..k];
  }

  lemma {:induction false} StateTellsTheRun(es: seq<Event>, ss: seq<State>, k: nat)
    requires IsRun(es, ss) && k < |ss|
    ensures ss[k].cost == Spent(es[..k]) && forall p :: p in ss[k].policies <==> Add(p) in es[..k]
  {
    if k > 0 {
      StateTellsTheRun(es, ss, k - 1);
      StepTotals(ss[k - 1], es[k - 1]);
      SpentNext(es, k - 1);
    }
  }

  /** A policy that was there when a recording read the total counts as seen from then on. */
  lemma {:induction false} ReadIsSeen(es: seq<Event>, ss: seq<State>, j: nat, k: nat, p: Policy)
    requires IsRun(es, ss) && j < k < |ss| && es[j].Read? && p in ss[j].policies
    ensures p in ss[k].policies && p.name !in ss[k].unseen
  {
    if k > j + 1 {
      ReadIsSeen(es, ss, j, k - 1, p);
    }
  }

  /** However the calls overlapped, once none is in progress the alert of a threshold has been given
      exactly when all that was recorded comes to threshold times limit, for every policy that was
      added before some recording read the total. */
  lemma GivenExactlyWhen(es: seq<Event>, ss: seq<State>, j: nat, k: nat, p: Policy, t: real)
    requires IsRun(es, ss) && j < k < |ss| && Add(p) in es[..j] && es[j].Read? && Quiet(ss[k])
    ensures Delivered(ss[k], p.name, t) <==> p.limit > 0.0 && t in p.thresholds && Spent(es[..k]) >= t * p.limit
  {
    StateTellsTheRun(es, ss, j);
    StateTellsTheRun(es, ss, k);
    ReadIsSeen(es, ss, j, k, p);
    ExactWhenQuiet(es, ss, k, p, t);
    if p.limit > 0.0 { ReachedFrom(ss[k].cost, p, t); }
  }

  /** An alert about a threshold of a known policy, with a cost that reaches it and was once the total. */
  ghost predicate Truthful(s: State, a: Alert) {
    exists p :: p in s.policies && a.cost <= s.cost && Honest(a, p, a.cost)
  }

  ghost predicate AllTruthful(s: State) {
    && (forall i :: 0 <= i < |s.alerts| ==> Truthful(s, s.alerts[i]))
    && (forall c :: 0 <= c < |s.calls| && s.calls[c].Calling? ==> Truthful(s, s.calls[c].alert))
  }

  lemma TruthStays(s: State, s': State, a: Alert)
    requires Truthful(s, a) && s.cost <= s'.cost && forall p :: p in s.policies ==> p in s'.policies
    ensures Truthful(s', a)
  {
  }

  lemma MarkIsTruthful(s: State, c: nat)
    requires Inv(s) && Enabled(s, Mark(c)) && Marked(s, c).calls[c].Calling?
    ensures Truthful(s, Marked(s, c).calls[c].alert)
  {
    var call := s.calls[c];
    var (p, t) := call.todo[0];
    assert call.todo[0] in call.todo && Sensible(s, call.todo[0]);
    ReachedFrom(call.cost, p, t);
    assert Honest(Marked(s, c).calls[c].alert, p, call.cost);
  }

  lemma StepKeepsTruth(s: State, e: Event)
    requires Inv(s) && AllTruthful(s) && Enabled(s, e)
    ensures AllTruthful(Step(s, e))
  {
    var s' := Step(s, e);
    if e.Mark? && s'.calls[e.c].Calling? { MarkIsTruthful(s, e.c); }
    forall i | 0 <= i < |s'.alerts| ensures Truthful(s', s'.alerts[i]) {
      TruthStays(s, s', s'.alerts[i]);
    }
    forall c | 0 <= c < |s'.calls| && s'.calls[c].Calling? ensures Truthful(s', s'.calls[c].alert) {
      TruthStays(s, s', s'.calls[c].alert);
    }
  }

  lemma {:induction false} TruthAlongRun(es: seq<Event>, ss: seq<State>, k: nat)
    requires IsRun(es, ss) && k < |ss|
    ensures AllTruthful(ss[k])
  {
    if k > 0 {
      TruthAlongRun(es, ss, k - 1);
      InvAlongRun(es, ss, k - 1);
      StepKeepsTruth(ss[k - 1], es[k - 1]);
    }
  }

  /** However the calls overlap, every alert given names a policy that was added, its limit, one of its
      thresholds, and a cost that comes to threshold times limit and is covered by what was recorded. */
  lemma AlertsAreTruthful(es: seq<Event>, ss: seq<State>, k: nat, i: nat) returns (p: Policy)
    requires IsRun(es, ss) && k < |ss| && i < |ss[k].alerts|
    ensures var a := ss[k].alerts[i];
            && Add(p) in es[..k] && a.policy == p.name && a.limit == p.limit > 0.0
            && a.threshold in p.thresholds && a.threshold * p.limit <= a.cost <= Spent(es[..k])
  {
    TruthAlongRun(es, ss, k);
    StateTellsTheRun(es, ss, k);
    assert Truthful(ss[k], ss[k].alerts[i]);
    p :| p in ss[k].policies && ss[k].alerts[i].cost <= ss[k].cost && Honest(ss[k].alerts[i], p, ss[k].alerts[i].cost);
  }

  /** A check starts a call that looks, with the present total, at every threshold of every limited
      policy up to the first that blocks, and at no other. */
  lemma CheckLooksUpToBlock(s: State, p: Policy, t: real)
    ensures var calls := Step(s, Event.Check).calls;
            && |calls| == |s.calls| + 1 && calls[|s.calls|].Firing? && calls[|s.calls|].cost == s.cost
            && ((p, t) in calls[|s.calls|].todo <==>
                p.limit > 0.0 && t in p.thresholds &&
                exists i :: 0 <= i < |s.policies| && s.policies[i] == p && forall j :: 0 <= j < i ==> !Blocks(s.cost, s.policies[j]))
  {
    var visited := Visited(s.cost, s.policies);
    TodoMembers(visited);
    VisitedUntilBlocked(s.cost, s.policies);
    if i :| 0 <= i < |s.policies| && s.policies[i] == p && forall j :: 0 <= j < i ==> !Blocks(s.cost, s.policies[j]) {
      VisitedBeforeBlock(s.cost, s.policies, i);
    }
    if p in visited {
      var i :| 0 <= i < |visited| && visited[i] == p;
      assert s.policies[i] == p;
    }
  }

  /** A call that is not done can always go on, and has boundedly many steps left. */
  ghost function StepsLeft(s: State, c: nat): nat
    requires c < |s.calls|
  {
    match s.calls[c]
    case Adding => 2 + 2 * |Todo(s.policies)|
    case Firing(todo, _) => 2 * |todo|
    case Calling(_, todo, _) => 1 + 2 * |todo|
  }

  /** The next step of a call. */
  ghost function NextOf(s: State, c: nat): Event
    requires c < |s.calls|
  {
    if s.calls[c].Adding? then Read(c) else if s.calls[c].Firing? then Mark(c) else Deliver(c)
  }

  lemma CallProceeds(s: State, c: nat)
    requires Inv(s) && c < |s.calls| && !(s.calls[c].Firing? && s.calls[c].todo == [])
    ensures Enabled(s, NextOf(s, c)) && StepsLeft(Step(s, NextOf(s, c)), c) < StepsLeft(s, c)
  {
    if s.calls[c].Firing? {
      assert s.calls[c].todo[0] in s.calls[c].todo;
    }
  }

  // ---- the order of marks and of alerts ----

  ghost predicate NamesDifferByIndex(ps: seq<Policy>) {
    forall i, j :: 0 <= i < j < |ps| ==> ps[i].name != ps[j].name
  }

  /** The thresholds of one policy are looked at in ascending order. */
  ghost predicate Rising(todo: seq<Item>) {
    forall i, j :: 0 <= i < j < |todo| && todo[i].0 == todo[j].0 ==> todo[i].1 <= todo[j].1
  }

  /** A threshold below one still to be looked at is still to be looked at, marked, or out of reach. */
  ghost predicate NonePassed(s: State, todo: seq<Item>, cost: real) {
    forall p: Policy, t, u :: (p, u) in todo && p.limit > 0.0 && t in p.thresholds && t < u ==>
      (p, t) in todo || t in Marks(s.fired, p.name) || !Reached(cost, p, t)
  }

  ghost predicate CallInOrder(s: State, call: Call) {
    !call.Adding? ==> Rising(call.todo) && NonePassed(s, call.todo, call.cost)
  }

  /** With a marked threshold all lower ones of its policy are marked. */
  ghost predicate MarksClosed(s: State) {
    forall p: Policy, t, u ::
      p in s.policies && p.limit > 0.0 && t in p.thresholds && u in Marks(s.fired, p.name) && t < u ==>
        t in Marks(s.fired, p.name)
  }

  ghost predicate InOrder(s: State) {
    && NamesDifferByIndex(s.policies) && MarksClosed(s)
    && forall c :: 0 <= c < |s.calls| ==> CallInOrder(s, s.calls[c])
  }

  lemma {:induction false} TodoRises(ps: seq<Policy>)
    requires NamesDifferByIndex(ps)
    ensures Rising(Todo(ps))
  {
    if ps != [] {
      TodoRises(ps[1..]);
      AscendingIsSorted(ps[0].thresholds);
      TailIsApart(ps);
      var head := if ps[0].limit <= 0.0 then [] else ItemsOf(ps[0], Ascending(ps[0].thresholds));
      RisingTogether(head, Todo(ps[1..]), ps[0]);
    }
  }

  lemma RisingTogether(head: seq<Item>, tail: seq<Item>, p: Policy)
    requires Rising(head) && Rising(tail)
    requires forall i :: 0 <= i < |head| ==> head[i].0 == p
    requires forall i :: 0 <= i < |tail| ==> tail[i].0 != p
    ensures Rising(head + tail)
  {
  }

  /** Further policies have other thresholds to look at. */
  lemma TailIsApart(ps: seq<Policy>)
    requires ps != [] && NamesDifferByIndex(ps)
    ensures forall i :: 0 <= i < |Todo(ps[1..])| ==> Todo(ps[1..])[i].0 != ps[0]
  {
    var tail := Todo(ps[1..]);
    TodoMembers(ps[1..]);
    forall i | 0 <= i < |tail| ensures tail[i].0 != ps[0] {
      var (q, t) := tail[i];
      assert (q, t) in tail;
      var k :| 0 <= k < |ps[1..]| && ps[1..][k] == q;
      assert ps[k + 1].name != ps[0].name;
    }
  }

  lemma TodoInOrder(s: State, ps: seq<Policy>, cost: real)
    requires NamesDifferByIndex(ps)
    ensures CallInOrder(s, Firing(Todo(ps), cost))
  {
    TodoRises(ps);
    TodoMembers(ps);
  }

  lemma {:induction false} VisitedIsPrefix(cost: real, ps: seq<Policy>)
    ensures Visited(cost, ps) <= ps
  {
    if ps != [] { VisitedIsPrefix(cost, ps[1..]); }
  }

  /** More marks leave a call in order. */
  lemma MarksKeepCalls(s: State, s': State, call: Call)
    requires CallInOrder(s, call) && forall name :: Marks(s.fired, name) <= Marks(s'.fired, name)
    ensures CallInOrder(s', call)
  {
  }

  lemma MarkKeepsThisCall(s: State, c: nat)
    requires Enabled(s, Mark(c)) && CallInOrder(s, s.calls[c])
    ensures CallInOrder(Marked(s, c), Marked(s, c).calls[c])
  {
    var s', call := Marked(s, c), s.calls[c];
    var todo := call.todo[1..];
    assert call.todo == [call.todo[0]] + todo;
    forall p: Policy, t, u | (p, u) in todo && p.limit > 0.0 && t in p.thresholds && t < u
      ensures (p, t) in todo || t in Marks(s'.fired, p.name) || !Reached(call.cost, p, t)
    {
      assert (p, u) in call.todo;
      if (p, t) in call.todo && (p, t) !in todo { assert (p, t) == call.todo[0]; }
    }
    assert Rising(todo);
  }

  /** What a call marks is the lowest threshold of its policy that is reached and not marked. */
  lemma LowerAreMarked(s: State, c: nat, t: real)
    requires Enabled(s, Mark(c)) && CallInOrder(s, s.calls[c])
    requires var (p, u) := s.calls[c].todo[0]; Reached(s.calls[c].cost, p, u) && t in p.thresholds && t < u
    ensures t in Marks(s.fired, s.calls[c].todo[0].0.name)
  {
    var todo := s.calls[c].todo;
    var (p, u) := todo[0];
    assert (p, u) in todo;
    RatioOrder(s.calls[c].cost, p, t, u);
    forall j | 0 <= j < |todo| ensures todo[j] != (p, t) {
      if j > 0 && todo[j].0 == p { assert todo[0].1 <= todo[j].1; }
    }
  }

  lemma RatioOrder(cost: real, p: Policy, t: real, u: real)
    requires p.limit > 0.0 && Reached(cost, p, u) && t < u
    ensures Reached(cost, p, t)
  {
  }

  lemma MarkKeepsClosed(s: State, c: nat)
    requires Inv(s) && InOrder(s) && Enabled(s, Mark(c))
    ensures MarksClosed(Marked(s, c))
  {
    var s' := Marked(s, c);
    var (q, v) := s.calls[c].todo[0];
    assert s.calls[c].todo[0] in s.calls[c].todo && Sensible(s, s.calls[c].todo[0]);
    forall p: Policy, t, u |
      p in s'.policies && p.limit > 0.0 && t in p.thresholds && u in Marks(s'.fired, p.name) && t < u
      ensures t in Marks(s'.fired, p.name)
    {
      if u !in Marks(s.fired, p.name) {
        assert p == q && u == v;
        LowerAreMarked(s, c, t);
      }
    }
  }

  lemma AddKeepsOrder(s: State, p: Policy)
    requires Inv(s) && InOrder(s) && Enabled(s, Add(p))
    ensures InOrder(Step(s, Add(p)))
  {
    var s' := Step(s, Add(p));
    forall t ensures t !in Marks(s.fired, p.name) { assert forall q :: !DueBy(s, q, p.name, t); }
    assert forall name :: Marks(s'.fired, name) == Marks(s.fired, name);
    forall i, j | 0 <= i < j < |s'.policies| ensures s'.policies[i].name != s'.policies[j].name {
      assert s'.policies[i] == s.policies[i] && s.policies[i] in s.policies;
    }
    forall c | 0 <= c < |s'.calls| ensures CallInOrder(s', s'.calls[c]) { MarksKeepCalls(s, s', s.calls[c]); }
  }

  lemma StepKeepsOrder(s: State, e: Event)
    requires Inv(s) && InOrder(s) && Enabled(s, e)
    ensures InOrder(Step(s, e))
  {
    var s' := Step(s, e);
    match e
    case Add(p) => AddKeepsOrder(s, p);
    case Record(_) =>
      forall c | 0 <= c < |s'.calls| ensures CallInOrder(s', s'.calls[c]) {
        if c < |s.calls| { MarksKeepCalls(s, s', s.calls[c]); }
      }
    case Read(d) =>
      TodoInOrder(s', s.policies, s.cost);
      forall c | 0 <= c < |s'.calls| ensures CallInOrder(s', s'.calls[c]) {
        if c != d { MarksKeepCalls(s, s', s.calls[c]); }
      }
    case Check =>
      VisitedIsPrefix(s.cost, s.policies);
      TodoInOrder(s', Visited(s.cost, s.policies), s.cost);
      forall c | 0 <= c < |s'.calls| ensures CallInOrder(s', s'.calls[c]) {
        if c < |s.calls| { MarksKeepCalls(s, s', s.calls[c]); }
      }
    case Mark(d) =>
      MarkKeepsClosed(s, d);
      MarkKeepsThisCall(s, d);
      forall c | 0 <= c < |s'.calls| ensures CallInOrder(s', s'.calls[c]) {
        if c != d { MarksKeepCalls(s, s', s.calls[c]); }
      }
    case Deliver(d) =>
      forall c | 0 <= c < |s'.calls| ensures CallInOrder(s', s'.calls[c]) { MarksKeepCalls(s, s', s.calls[c]); }
  }

  lemma {:induction false} InOrderAlongRun(es: seq<Event>, ss: seq<State>, k: nat)
    requires IsRun(es, ss) && k < |ss|
    ensures InOrder(ss[k])
  {
    if k > 0 {
      InOrderAlongRun(es, ss, k - 1);
      InvAlongRun(es, ss, k - 1);
      StepKeepsOrder(ss[k - 1], es[k - 1]);
    }
  }

  /** However the calls overlap, thresholds of a policy are marked from the lowest up: with every mark
      come all lower thresholds of its policy. */
  lemma MarkedFromTheLowest(es: seq<Event>, ss: seq<State>, k: nat, p: Policy, t: real, u: real)
    requires IsRun(es, ss) && k < |ss| && p in ss[k].policies && p.limit > 0.0
    requires t in p.thresholds && u in Marks(ss[k].fired, p.name) && t < u
    ensures t in Marks(ss[k].fired, p.name)
  {
    InOrderAlongRun(es, ss, k);
  }

  /** At most one call is in progress. */
  ghost predicate Alone(s: State) {
    forall c, d :: 0 <= c < d < |s.calls| ==> Done(s.calls[c]) || Done(s.calls[d])
  }

  predicate Done(call: Call) { call.Firing? && call.todo == [] }

  /** Alerts of a policy so far ascend, and the one in hand is above them. */
  ghost predicate AlertsRise(s: State) {
    && (forall i, j :: 0 <= i < j < |s.alerts| && s.alerts[i].policy == s.alerts[j].policy ==>
          s.alerts[i].threshold < s.alerts[j].threshold)
    && (forall i, c :: 0 <= i < |s.alerts| && 0 <= c < |s.calls| && s.calls[c].Calling? &&
                       s.alerts[i].policy == s.calls[c].alert.policy ==>
          s.alerts[i].threshold < s.calls[c].alert.threshold)
  }

  lemma MarkAboveAlerts(s: State, c: nat, i: nat)
    requires Inv(s) && InOrder(s) && Enabled(s, Mark(c)) && i < |s.alerts|
    requires var (p, t) := s.calls[c].todo[0]; t !in Marks(s.fired, p.name) && s.alerts[i].policy == p.name
    ensures s.alerts[i].threshold < s.calls[c].todo[0].1
  {
    var todo := s.calls[c].todo;
    assert todo[0] in todo && Sensible(s, todo[0]);
    var u := s.alerts[i].threshold;
    assert About(s.alerts[i], s.alerts[i].policy, u) && Delivered(s, s.alerts[i].policy, u);
    assert u in Marks(s.fired, todo[0].0.name);
  }

  lemma StepKeepsRising(s: State, e: Event)
    requires Inv(s) && InOrder(s) && Enabled(s, e) && AlertsRise(s) && Alone(s)
    ensures AlertsRise(Step(s, e))
  {
    var s' := Step(s, e);
    if e.Mark? && s'.calls[e.c].Calling? {
      forall i | 0 <= i < |s.alerts| && s.alerts[i].policy == s'.calls[e.c].alert.policy
        ensures s.alerts[i].threshold < s'.calls[e.c].alert.threshold
      {
        MarkAboveAlerts(s, e.c, i);
      }
    }
  }

  lemma {:induction false} AlertsRiseAlongRun(es: seq<Event>, ss: seq<State>, k: nat)
    requires IsRun(es, ss) && k < |ss| && forall i :: 0 <= i < |ss| ==> Alone(ss[i])
    ensures AlertsRise(ss[k])
  {
    if k > 0 {
      AlertsRiseAlongRun(es, ss, k - 1);
      InvAlongRun(es, ss, k - 1);
      InOrderAlongRun(es, ss, k - 1);
      StepKeepsRising(ss[k - 1], es[k - 1]);
    }
  }

  /** In all runs, whose calls overlap only if `overlaps`, the alerts of a policy ascend. */
  ghost predicate AlertsAscend(overlaps: bool) {
    forall es: seq<Event>, ss: seq<State> ::
      IsRun(es, ss) && (overlaps || forall i :: 0 <= i < |ss| ==> Alone(ss[i])) ==> AlertsRise(ss[|es|])
  }

  // ---- overlapping calls can give alerts out of order ----

  function Halves(): Policy { Policy("a", 10.0, [0.5, 0.75], Action.Warn) }

  lemma HalvesTodo()
    ensures Todo([Halves()]) == [(Halves(), 0.5), (Halves(), 0.75)]
  {
    assert Ascending([]) == [] && Ascending([0.75]) == [0.75] && [0.5, 0.75][1..] == [0.75] && [0.75][1..] == [];
    assert Ascending([0.5, 0.75]) == [0.5, 0.75];
    assert Todo([]) == [] && [Halves()][1..] == [];
    assert ItemsOf(Halves(), [0.5, 0.75]) == [(Halves(), 0.5), (Halves(), 0.75)];
  }

  /** The one policy, and what else matters. */
  function With(marks: set<real>, cost: real, calls: seq<Call>, alerts: seq<Alert>): State {
    State.State([Halves()], map["a" := marks], cost, {}, calls, alerts)
  }

  function At(t: real, cost: real): Alert { Alert("a", t, cost, 10.0) }

  /** The events of the run: the first call marks one half and pauses before its callback, the second
      marks and reports three quarters. */
  function Overlap(): seq<Event> {
    [Add(Halves()), Record(5.0), Read(0), Mark(0), Record(3.0), Read(1), Mark(1), Mark(1), Deliver(1), Deliver(0)]
  }

  ghost function OverlapStates(): (ss: seq<State>)
    ensures |ss| == 11
  {
    var p, q := (Halves(), 0.5), (Halves(), 0.75);
    [State.State([], map[], 0.0, {}, [], []),
     With({}, 0.0, [], []).(unseen := {"a"}),
     With({}, 5.0, [Adding], []).(unseen := {"a"}),
     With({}, 5.0, [Firing([p, q], 5.0)], []),
     With({0.5}, 5.0, [Calling(At(0.5, 5.0), [q], 5.0)], []),
     With({0.5}, 8.0, [Calling(At(0.5, 5.0), [q], 5.0), Adding], []),
     With({0.5}, 8.0, [Calling(At(0.5, 5.0), [q], 5.0), Firing([p, q], 8.0)], []),
     With({0.5}, 8.0, [Calling(At(0.5, 5.0), [q], 5.0), Firing([q], 8.0)], []),
     With({0.5, 0.75}, 8.0, [Calling(At(0.5, 5.0), [q], 5.0), Calling(At(0.75, 8.0), [], 8.0)], []),
     With({0.5, 0.75}, 8.0, [Calling(At(0.5, 5.0), [q], 5.0), Firing([], 8.0)], [At(0.75, 8.0)]),
     With({0.5, 0.75}, 8.0, [Firing([q], 5.0), Firing([], 8.0)], [At(0.75, 8.0), At(0.5, 5.0)])]
  }

  lemma OverlapStarts(k: nat)
    requires k < 4
    ensures Enabled(OverlapStates()[k], Overlap()[k]) && OverlapStates()[k + 1] == Step(OverlapStates()[k], Overlap()[k])
  {
    HalvesTodo();
    assert Marks(map["a" := {}], "a") + {0.5} == {0.5};
  }

  lemma OverlapGoesOn(k: nat)
    requires 4 <= k < 7
    ensures Enabled(OverlapStates()[k], Overlap()[k]) && OverlapStates()[k + 1] == Step(OverlapStates()[k], Overlap()[k])
  {
    HalvesTodo();
    assert Marks(map["a" := {0.5}], "a") == {0.5};
  }

  lemma OverlapEnds(k: nat)
    requires 7 <= k < 10
    ensures Enabled(OverlapStates()[k], Overlap()[k]) && OverlapStates()[k + 1] == Step(OverlapStates()[k], Overlap()[k])
  {
    assert Marks(map["a" := {0.5}], "a") + {0.75} == {0.5, 0.75};
    assert [(Halves(), 0.75)][1..] == [];
  }

  /** Within one call thresholds are reported in ascending order, but a call that is overtaken between
      marking and calling back reports a lower threshold after a higher one. */
  lemma OverlapReversesAlerts()
    ensures IsRun(Overlap(), OverlapStates())
    ensures OverlapStates()[10].alerts == [At(0.75, 8.0), At(0.5, 5.0)]
  {
    forall k | 0 <= k < 10
      ensures Enabled(OverlapStates()[k], Overlap()[k]) && OverlapStates()[k + 1] == Step(OverlapStates()[k], Overlap()[k])
    {
      if k < 4 { OverlapStarts(k); } else if k < 7 { OverlapGoesOn(k); } else { OverlapEnds(k); }
    }
  }

  /** The alerts of a policy come in ascending order exactly if calls do not overlap. */
  lemma AlertsAscendExactlyWithoutOverlap(overlaps: bool)
    ensures AlertsAscend(overlaps) <==> !overlaps
  {
    if overlaps {
      OverlapReversesAlerts();
      var s := OverlapStates()[10];
      assert s.alerts[0].threshold == 0.75 && s.alerts[1].threshold == 0.5;
    } else {
      forall es: seq<Event>, ss: seq<State> | IsRun(es, ss) && forall i :: 0 <= i < |ss| ==> Alone(ss[i])
        ensures AlertsRise(ss[|es|])
      {
        AlertsRiseAlongRun(es, ss, |es|);
      }
    }
  }
}

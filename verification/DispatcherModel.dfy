/** The dispatcher as a step machine. Every critical section of `dispatcher/dispatcher.go` is one
    step, and a run interleaves the steps of any number of workers and callers. */
module DispatcherModel {
  import opened PriorityHeap
  import opened Groups

  /** Where a worker goroutine is: about to lock the mutex, parked in `cond.Wait` without having
      been notified, running a handler, past the send on the result channel but before the
      release, or returned. */
  datatype Phase = Ready | Waiting | Running(job: Job) | Sent(job: Job) | Exited

  datatype Config = Config(limits: map<string, int>, queueSize: nat)

  /** A handler start, with the value of the sequence counter at that moment. */
  datatype Start = Start(job: Job, clock: nat)

  /** `accepted`, `starts` and `delivered` are the history of the run; the rest is the
      dispatcher's own state. */
  datatype State = State(
    queue: seq<Job>, active: map<string, nat>, counter: nat, closed: bool, workers: seq<Phase>,
    accepted: seq<Job>, starts: seq<Start>, delivered: seq<Job>)

  datatype Event = Submit(priority: int, group: string) | Check(w: nat) | Deliver(w: nat) | Finish(w: nat) | Close

  ghost predicate Init(s: State) {
    && s.queue == [] && s.active == map[] && s.counter == 0 && !s.closed
    && (forall w :: 0 <= w < |s.workers| ==> s.workers[w] == Ready)
    && s.accepted == [] && s.starts == [] && s.delivered == []
  }

  /** `cond.Broadcast`: every parked worker will lock the mutex again. */
  function Broadcast(ws: seq<Phase>): (r: seq<Phase>)
    ensures |r| == |ws|
    ensures forall w :: 0 <= w < |ws| ==> r[w] == if ws[w].Waiting? then Ready else ws[w]
  {
    seq(|ws|, w requires 0 <= w < |ws| => if ws[w].Waiting? then Ready else ws[w])
  }

  predicate Eligible(cfg: Config, active: map<string, nat>, job: Job) {
    CanAcquire(cfg.limits, active, job.group)
  }

  ghost predicate NoneEligible(cfg: Config, active: map<string, nat>, q: seq<Job>) {
    forall i :: 0 <= i < |q| ==> !Eligible(cfg, active, q[i])
  }

  /** The index `dequeue` stops at: the first eligible one in array order. */
  ghost predicate Selects(cfg: Config, s: State, i: nat) {
    && i < |s.queue|
    && Eligible(cfg, s.active, s.queue[i])
    && forall k :: 0 <= k < i ==> !Eligible(cfg, s.active, s.queue[k])
  }

  ghost predicate SubmitStep(cfg: Config, s: State, priority: int, group: string, s': State) {
    if s.closed || |s.queue| >= cfg.queueSize then s' == s
    else
      var job := Job(priority, group, s.counter + 1);
      && HeapOrdered(s'.queue)
      && multiset(s'.queue) == multiset(s.queue) + multiset{job}
      && s' == s.(queue := s'.queue, counter := s.counter + 1, accepted := s.accepted + [job],
                  workers := Broadcast(s.workers))
  }

  ghost predicate StartStep(cfg: Config, s: State, w: nat, i: nat, s': State)
    requires w < |s.workers|
  {
    && Selects(cfg, s, i)
    && HeapOrdered(s'.queue)
    && multiset(s'.queue) == multiset(s.queue) - multiset{s.queue[i]}
    && s' == s.(queue := s'.queue, active := Acquired(s.active, s.queue[i].group),
                workers := s.workers[w := Running(s.queue[i])],
                starts := s.starts + [Start(s.queue[i], s.counter)])
  }

  /** One pass of the worker's inner loop: take a job, return, or park. */
  ghost predicate CheckStep(cfg: Config, s: State, w: nat, s': State) {
    && w < |s.workers| && s.workers[w].Ready?
    && if !NoneEligible(cfg, s.active, s.queue) then exists i: nat :: StartStep(cfg, s, w, i, s')
       else if s.closed && s.queue == [] then s' == s.(workers := s.workers[w := Exited])
       else s' == s.(workers := s.workers[w := Waiting])
  }

  ghost predicate DeliverStep(s: State, w: nat, s': State) {
    && w < |s.workers| && s.workers[w].Running?
    && s' == s.(workers := s.workers[w := Sent(s.workers[w].job)],
                delivered := s.delivered + [s.workers[w].job])
  }

  ghost predicate FinishStep(s: State, w: nat, s': State) {
    && w < |s.workers| && s.workers[w].Sent?
    && s' == s.(active := Released(s.active, s.workers[w].job.group),
                workers := Broadcast(s.workers[w := Ready]))
  }

  ghost predicate Next(cfg: Config, s: State, e: Event, s': State) {
    match e
    case Submit(priority, group) => SubmitStep(cfg, s, priority, group, s')
    case Check(w) => CheckStep(cfg, s, w, s')
    case Deliver(w) => DeliverStep(s, w, s')
    case Finish(w) => FinishStep(s, w, s')
    case Close => s' == s.(closed := true, workers := Broadcast(s.workers))
  }

  // ---- counting over the workers ----

  datatype Metric = Holding(group: string) | Executing(job: Job) | RunningNow | SentNow | ReadyNow

  function Weight(m: Metric, p: Phase): nat {
    match m
    case Holding(g) => if (p.Running? || p.Sent?) && p.job.group == g then 1 else 0
    case Executing(j) => if p == Running(j) then 1 else 0
    case RunningNow => if p.Running? then 1 else 0
    case SentNow => if p.Sent? then 1 else 0
    case ReadyNow => if p.Ready? then 1 else 0
  }

  /** How many workers a metric counts. */
  function Total(m: Metric, ws: seq<Phase>): nat {
    if ws == [] then 0 else Total(m, ws[..|ws| - 1]) + Weight(m, ws[|ws| - 1])
  }

  lemma {:induction false} TotalUpdate(m: Metric, ws: seq<Phase>, w: nat, p: Phase)
    requires w < |ws|
    ensures Total(m, ws[w := p]) + Weight(m, ws[w]) == Total(m, ws) + Weight(m, p)
  {
    var n := |ws| - 1;
    if w < n {
      TotalUpdate(m, ws[..n], w, p);
      assert ws[w := p][..n] == ws[..n][w := p];
    } else {
      assert ws[w := p][..n] == ws[..n];
    }
  }

  lemma {:induction false} TotalBroadcast(m: Metric, ws: seq<Phase>)
    ensures m.ReadyNow? || Total(m, Broadcast(ws)) == Total(m, ws)
  {
    if ws != [] {
      var n := |ws| - 1;
      TotalBroadcast(m, ws[..n]);
      assert Broadcast(ws)[..n] == Broadcast(ws[..n]);
    }
  }

  lemma {:induction false} TotalAtMostAll(m: Metric, ws: seq<Phase>)
    ensures Total(m, ws) <= |ws|
  {
    if ws != [] { TotalAtMostAll(m, ws[..|ws| - 1]); }
  }

  lemma {:induction false} SomeoneCounted(m: Metric, ws: seq<Phase>) returns (w: nat)
    requires Total(m, ws) > 0
    ensures w < |ws| && Weight(m, ws[w]) > 0
  {
    var n := |ws| - 1;
    if Weight(m, ws[n]) > 0 { w := n; } else { w := SomeoneCounted(m, ws[..n]); }
  }

  lemma {:induction false} CountedMeansPositive(m: Metric, ws: seq<Phase>, w: nat)
    requires w < |ws| && Weight(m, ws[w]) > 0
    ensures Total(m, ws) > 0
  {
    var n := |ws| - 1;
    if w < n { CountedMeansPositive(m, ws[..n], w); }
  }

  // ---- the invariant ----

  /** `active[g]` is the number of workers holding a job of group g, and a positive limit bounds it. */
  ghost predicate CountsRight(cfg: Config, s: State) {
    && (forall g :: g != "" ==> ActiveCount(s.active, g) == Total(Holding(g), s.workers))
    && (forall g :: Limited(cfg.limits, g) ==> ActiveCount(s.active, g) <= cfg.limits[g])
  }

  /** The k-th accepted job carries number k+1. */
  ghost predicate Numbered(s: State) {
    && s.counter == |s.accepted|
    && forall k :: 0 <= k < |s.accepted| ==> s.accepted[k].number == k + 1
  }

  /** Nothing accepted is lost or duplicated. */
  ghost predicate Conserved(s: State) {
    forall j :: multiset(s.accepted)[j] ==
                multiset(s.queue)[j] + Total(Executing(j), s.workers) + multiset(s.delivered)[j]
  }

  /** No lost wake-up: a parked worker has nothing to do, and never waits on a closed empty queue. */
  ghost predicate WaitersJustified(cfg: Config, s: State) {
    forall w :: 0 <= w < |s.workers| && s.workers[w].Waiting? ==>
      NoneEligible(cfg, s.active, s.queue) && (s.closed ==> s.queue != [])
  }

  ghost predicate ExitsJustified(s: State) {
    forall w :: 0 <= w < |s.workers| && s.workers[w].Exited? ==> s.closed && s.queue == []
  }

  ghost predicate Inv(cfg: Config, s: State) {
    && HeapOrdered(s.queue) && CountsRight(cfg, s) && Numbered(s) && Conserved(s)
    && WaitersJustified(cfg, s) && ExitsJustified(s)
  }

  lemma BroadcastKeepsCounts(ws: seq<Phase>)
    ensures forall m: Metric :: !m.ReadyNow? ==> Total(m, Broadcast(ws)) == Total(m, ws)
  {
    forall m: Metric | !m.ReadyNow? ensures Total(m, Broadcast(ws)) == Total(m, ws) {
      TotalBroadcast(m, ws);
    }
  }

  lemma UpdateCounts(ws: seq<Phase>, w: nat, p: Phase)
    requires w < |ws|
    ensures forall m :: Total(m, ws[w := p]) == Total(m, ws) + Weight(m, p) - Weight(m, ws[w])
  {
    forall m ensures Total(m, ws[w := p]) == Total(m, ws) + Weight(m, p) - Weight(m, ws[w]) {
      TotalUpdate(m, ws, w, p);
    }
  }

  lemma {:induction false} FreshWorkers(ws: seq<Phase>)
    requires forall w :: 0 <= w < |ws| ==> ws[w] == Ready
    ensures forall m: Metric :: !m.ReadyNow? ==> Total(m, ws) == 0
  {
    if ws != [] { FreshWorkers(ws[..|ws| - 1]); }
  }

  lemma InitEstablishesInv(cfg: Config, s: State)
    requires Init(s)
    ensures Inv(cfg, s)
  {
    FreshWorkers(s.workers);
  }

  lemma SubmitConserves(cfg: Config, s: State, priority: int, group: string, s': State)
    requires Conserved(s) && SubmitStep(cfg, s, priority, group, s')
    ensures Conserved(s')
  {
    BroadcastKeepsCounts(s.workers);
  }

  lemma SubmitKeepsCounts(cfg: Config, s: State, priority: int, group: string, s': State)
    requires CountsRight(cfg, s) && SubmitStep(cfg, s, priority, group, s')
    ensures CountsRight(cfg, s')
  {
    BroadcastKeepsCounts(s.workers);
  }

  /** After a broadcast nobody is parked, and a worker that has returned stays so. */
  lemma SubmitKeepsRest(cfg: Config, s: State, priority: int, group: string, s': State)
    requires HeapOrdered(s.queue) && Numbered(s) && WaitersJustified(cfg, s) && ExitsJustified(s)
    requires SubmitStep(cfg, s, priority, group, s')
    ensures HeapOrdered(s'.queue) && Numbered(s') && WaitersJustified(cfg, s') && ExitsJustified(s')
  {
  }

  lemma SubmitKeepsInv(cfg: Config, s: State, priority: int, group: string, s': State)
    requires Inv(cfg, s) && SubmitStep(cfg, s, priority, group, s')
    ensures Inv(cfg, s')
  {
    SubmitConserves(cfg, s, priority, group, s');
    SubmitKeepsCounts(cfg, s, priority, group, s');
    SubmitKeepsRest(cfg, s, priority, group, s');
  }

  /** A job is only ever taken while no worker is parked. */
  lemma NoWaitersWhenTaking(cfg: Config, s: State, i: nat)
    requires Inv(cfg, s) && Selects(cfg, s, i)
    ensures forall w :: 0 <= w < |s.workers| ==> !s.workers[w].Waiting? && !s.workers[w].Exited?
  {
    assert !NoneEligible(cfg, s.active, s.queue);
  }

  lemma StartKeepsCounts(cfg: Config, s: State, w: nat, i: nat, s': State)
    requires Inv(cfg, s) && w < |s.workers| && s.workers[w].Ready? && StartStep(cfg, s, w, i, s')
    ensures CountsRight(cfg, s')
  {
    UpdateCounts(s.workers, w, Running(s.queue[i]));
  }

  lemma StartConserves(cfg: Config, s: State, w: nat, i: nat, s': State)
    requires Inv(cfg, s) && w < |s.workers| && s.workers[w].Ready? && StartStep(cfg, s, w, i, s')
    ensures Conserved(s')
  {
    UpdateCounts(s.workers, w, Running(s.queue[i]));
    assert s.queue[i] in multiset(s.queue);
  }

  lemma StartKeepsInv(cfg: Config, s: State, w: nat, i: nat, s': State)
    requires Inv(cfg, s) && w < |s.workers| && s.workers[w].Ready? && StartStep(cfg, s, w, i, s')
    ensures Inv(cfg, s')
  {
    StartKeepsCounts(cfg, s, w, i, s');
    StartConserves(cfg, s, w, i, s');
    NoWaitersWhenTaking(cfg, s, i);
  }

  lemma IdleKeepsInv(cfg: Config, s: State, w: nat, p: Phase)
    requires Inv(cfg, s) && w < |s.workers| && s.workers[w].Ready? && NoneEligible(cfg, s.active, s.queue)
    requires p == if s.closed && s.queue == [] then Exited else Waiting
    ensures Inv(cfg, s.(workers := s.workers[w := p]))
  {
    UpdateCounts(s.workers, w, p);
  }

  lemma CheckKeepsInv(cfg: Config, s: State, w: nat, s': State)
    requires Inv(cfg, s) && CheckStep(cfg, s, w, s')
    ensures Inv(cfg, s')
  {
    if !NoneEligible(cfg, s.active, s.queue) {
      var i: nat :| StartStep(cfg, s, w, i, s');
      StartKeepsInv(cfg, s, w, i, s');
    } else {
      IdleKeepsInv(cfg, s, w, if s.closed && s.queue == [] then Exited else Waiting);
    }
  }

  lemma DeliverConserves(s: State, w: nat, s': State)
    requires Conserved(s) && DeliverStep(s, w, s')
    ensures Conserved(s')
  {
    UpdateCounts(s.workers, w, s'.workers[w]);
  }

  lemma DeliverKeepsInv(cfg: Config, s: State, w: nat, s': State)
    requires Inv(cfg, s) && DeliverStep(s, w, s')
    ensures Inv(cfg, s')
  {
    DeliverConserves(s, w, s');
    DeliverKeepsCounts(cfg, s, w, s');
  }

  lemma DeliverKeepsCounts(cfg: Config, s: State, w: nat, s': State)
    requires CountsRight(cfg, s) && DeliverStep(s, w, s')
    ensures CountsRight(cfg, s')
  {
    UpdateCounts(s.workers, w, s'.workers[w]);
  }

  /** `release` is only called for a group whose count is positive, so its floor is never hit. */
  lemma ReleaseAboveFloor(cfg: Config, s: State, w: nat)
    requires Inv(cfg, s) && w < |s.workers| && (s.workers[w].Running? || s.workers[w].Sent?)
    requires s.workers[w].job.group != ""
    ensures ActiveCount(s.active, s.workers[w].job.group) > 0
  {
    CountedMeansPositive(Holding(s.workers[w].job.group), s.workers, w);
  }

  lemma FinishCounts(s: State, w: nat)
    requires w < |s.workers| && s.workers[w].Sent?
    ensures forall m: Metric :: !m.ReadyNow? ==>
              Total(m, Broadcast(s.workers[w := Ready])) == Total(m, s.workers) - Weight(m, s.workers[w])
  {
    UpdateCounts(s.workers, w, Ready);
    BroadcastKeepsCounts(s.workers[w := Ready]);
  }

  lemma FinishKeepsCounts(cfg: Config, s: State, w: nat, s': State)
    requires CountsRight(cfg, s) && FinishStep(s, w, s')
    requires s.workers[w].job.group != "" ==> ActiveCount(s.active, s.workers[w].job.group) > 0
    ensures CountsRight(cfg, s')
  {
    FinishCounts(s, w);
  }

  lemma FinishKeepsInv(cfg: Config, s: State, w: nat, s': State)
    requires Inv(cfg, s) && FinishStep(s, w, s')
    ensures Inv(cfg, s')
  {
    if s.workers[w].job.group != "" { ReleaseAboveFloor(cfg, s, w); }
    FinishKeepsCounts(cfg, s, w, s');
    FinishCounts(s, w);
    assert Conserved(s');
  }

  /** Every step of every interleaving keeps the invariant. */
  lemma NextKeepsInv(cfg: Config, s: State, e: Event, s': State)
    requires Inv(cfg, s) && Next(cfg, s, e, s')
    ensures Inv(cfg, s')
  {
    match e
    case Submit(priority, group) => SubmitKeepsInv(cfg, s, priority, group, s');
    case Check(w) => CheckKeepsInv(cfg, s, w, s');
    case Deliver(w) => DeliverKeepsInv(cfg, s, w, s');
    case Finish(w) => FinishKeepsInv(cfg, s, w, s');
    case Close => BroadcastKeepsCounts(s.workers);
  }
}

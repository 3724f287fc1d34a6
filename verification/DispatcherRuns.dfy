/** What holds of the dispatcher over whole runs: limits, exactly-once delivery, absence of
    deadlock, drain after shutdown, and the order in which jobs leave the queue. */
module DispatcherRuns {
  import opened PriorityHeap
  import opened Groups
  import opened DispatcherModel

  /** `ss` is the sequence of states that the events `es` lead through from a fresh dispatcher. */
  ghost predicate IsRun(cfg: Config, es: seq<Event>, ss: seq<State>) {
    |ss| == |es| + 1 && Init(ss[0]) && Steps(cfg, es, ss)
  }

  ghost predicate Steps(cfg: Config, es: seq<Event>, ss: seq<State>)
    requires |ss| == |es| + 1
  {
    forall i :: 0 <= i < |es| ==> Next(cfg, ss[i], es[i], ss[i + 1])
  }

  lemma {:induction false} InvAlongRun(cfg: Config, es: seq<Event>, ss: seq<State>, i: nat)
    requires IsRun(cfg, es, ss) && i < |ss|
    ensures Inv(cfg, ss[i]) && |ss[i].workers| == |ss[0].workers|
  {
    if i == 0 {
      InitEstablishesInv(cfg, ss[0]);
    } else {
      InvAlongRun(cfg, es, ss, i - 1);
      NextKeepsInv(cfg, ss[i - 1], es[i - 1], ss[i]);
    }
  }

  /** Group limits: in every interleaving the active count of a named group is the number of
      workers holding one of its jobs, a positive limit is never exceeded, and a worker about to
      release finds a positive count. */
  lemma GroupLimits(cfg: Config, es: seq<Event>, ss: seq<State>, i: nat, g: string)
    requires IsRun(cfg, es, ss) && i < |ss| && g != ""
    ensures ActiveCount(ss[i].active, g) == Total(Holding(g), ss[i].workers)
    ensures g in cfg.limits && cfg.limits[g] > 0 ==> Total(Holding(g), ss[i].workers) <= cfg.limits[g]
    ensures forall w :: 0 <= w < |ss[i].workers| && ss[i].workers[w].Sent? && ss[i].workers[w].job.group == g ==>
              ActiveCount(ss[i].active, g) > 0
  {
    InvAlongRun(cfg, es, ss, i);
    forall w | 0 <= w < |ss[i].workers| && ss[i].workers[w].Sent? && ss[i].workers[w].job.group == g
      ensures ActiveCount(ss[i].active, g) > 0
    {
      ReleaseAboveFloor(cfg, ss[i], w);
    }
  }

  // ---- exactly once ----

  /** A job is held back exactly while as many workers hold jobs of its group as the group's positive
      limit; jobs without a group, and groups without a positive limit, are never held back. */
  lemma HeldBackExactlyWhen(cfg: Config, es: seq<Event>, ss: seq<State>, i: nat, job: Job)
    requires IsRun(cfg, es, ss) && i < |ss|
    ensures !Eligible(cfg, ss[i].active, job) <==>
            job.group != "" && job.group in cfg.limits && 0 < cfg.limits[job.group] == Total(Holding(job.group), ss[i].workers)
  {
    if job.group != "" { GroupLimits(cfg, es, ss, i, job.group); }
  }

  /** The dispatcher is closed exactly after a shutdown. */
  lemma {:induction false} ClosedExactlyAfterClose(cfg: Config, es: seq<Event>, ss: seq<State>, i: nat)
    requires IsRun(cfg, es, ss) && i < |ss|
    ensures ss[i].closed <==> Close in es[..i]
  {
    if i > 0 {
      ClosedExactlyAfterClose(cfg, es, ss, i - 1);
      assert es[..i] == es[..i - 1] + [es[i - 1]];
    }
  }

  /** A submission is accepted exactly when there was no shutdown and the queue has room; the job keeps
      its priority and group and gets the next number. */
  lemma SubmitAcceptedExactlyWhen(cfg: Config, es: seq<Event>, ss: seq<State>, i: nat, priority: int, group: string)
    requires IsRun(cfg, es, ss) && i < |es| && es[i] == Submit(priority, group)
    ensures ss[i + 1].accepted == ss[i].accepted +
            if Close !in es[..i] && |ss[i].queue| < cfg.queueSize then [Job(priority, group, |ss[i].accepted| + 1)] else []
  {
    InvAlongRun(cfg, es, ss, i);
    ClosedExactlyAfterClose(cfg, es, ss, i);
  }

  lemma {:induction false} NumberedJobsAreDistinct(jobs: seq<Job>, j: Job)
    requires forall k :: 0 <= k < |jobs| ==> jobs[k].number == k + 1
    ensures multiset(jobs)[j] == if j in jobs then 1 else 0
  {
    if jobs != [] {
      var n := |jobs| - 1;
      NumberedJobsAreDistinct(jobs[..n], j);
      assert jobs == jobs[..n] + [jobs[n]];
    }
  }

  /** Exactly once: every accepted job is queued, being handled or delivered, in exactly one of
      these places and there exactly once; nothing else is in any of them. In particular no
      result channel gets a second send. */
  lemma ExactlyOnce(cfg: Config, es: seq<Event>, ss: seq<State>, i: nat, j: Job)
    requires IsRun(cfg, es, ss) && i < |ss|
    ensures multiset(ss[i].queue)[j] + Total(Executing(j), ss[i].workers) + multiset(ss[i].delivered)[j]
            == if j in ss[i].accepted then 1 else 0
  {
    InvAlongRun(cfg, es, ss, i);
    NumberedJobsAreDistinct(ss[i].accepted, j);
  }

  /** The counters agree: submitted = queued + running + delivered. */
  lemma {:induction false} JobsAddUp(cfg: Config, es: seq<Event>, ss: seq<State>, i: nat)
    requires IsRun(cfg, es, ss) && i < |ss|
    ensures |ss[i].accepted| == |ss[i].queue| + Total(RunningNow, ss[i].workers) + |ss[i].delivered|
  {
    if i == 0 {
      FreshWorkers(ss[0].workers);
    } else {
      JobsAddUp(cfg, es, ss, i - 1);
      StepAddsUp(cfg, ss[i - 1], es[i - 1], ss[i]);
    }
  }

  lemma StepAddsUp(cfg: Config, s: State, e: Event, s': State)
    requires Next(cfg, s, e, s')
    requires |s.accepted| == |s.queue| + Total(RunningNow, s.workers) + |s.delivered|
    ensures |s'.accepted| == |s'.queue| + Total(RunningNow, s'.workers) + |s'.delivered|
  {
    match e
    case Submit(priority, group) =>
      BroadcastKeepsCounts(s.workers);
      if s' != s { LengthAfterPush(s.queue, Job(priority, group, s.counter + 1), s'.queue); }
    case Check(w) => CheckAddsUp(cfg, s, w, s');
    case Deliver(w) => TotalUpdate(RunningNow, s.workers, w, s'.workers[w]);
    case Finish(w) =>
      UpdateCounts(s.workers, w, Ready);
      BroadcastKeepsCounts(s.workers[w := Ready]);
    case Close => BroadcastKeepsCounts(s.workers);
  }

  lemma CheckAddsUp(cfg: Config, s: State, w: nat, s': State)
    requires CheckStep(cfg, s, w, s')
    ensures |s'.queue| + Total(RunningNow, s'.workers) == |s.queue| + Total(RunningNow, s.workers)
    ensures s'.accepted == s.accepted && s'.delivered == s.delivered
  {
    TotalUpdate(RunningNow, s.workers, w, s'.workers[w]);
    if !NoneEligible(cfg, s.active, s.queue) {
      var i: nat :| StartStep(cfg, s, w, i, s');
      LengthAfterRemove(s.queue, i, s'.queue);
    }
  }

  lemma LengthAfterPush(q: seq<Job>, job: Job, q': seq<Job>)
    requires multiset(q') == multiset(q) + multiset{job}
    ensures |q'| == |q| + 1
  {
    assert |multiset(q')| == |q'| && |multiset(q)| == |q|;
  }

  lemma LengthAfterRemove(q: seq<Job>, i: nat, q': seq<Job>)
    requires i < |q| && multiset(q') == multiset(q) - multiset{q[i]}
    ensures |q'| == |q| - 1
  {
    assert q[i] in multiset(q);
    assert |multiset(q')| == |q'| && |multiset(q)| == |q|;
  }

  // ---- deadlock freedom and drain ----

  ghost predicate WorkerEvent(e: Event) { e.Check? || e.Deliver? || e.Finish? }

  /** The worker is at a point from which it can take its next step. */
  ghost predicate CanStep(s: State, w: nat) {
    w < |s.workers| && !s.workers[w].Waiting? && !s.workers[w].Exited?
  }

  ghost predicate AllExited(s: State) {
    forall w :: 0 <= w < |s.workers| ==> s.workers[w].Exited?
  }

  /** A blocked job points at a worker that holds its group. */
  lemma BlockedMeansSomeoneRuns(cfg: Config, s: State, j: Job) returns (w: nat)
    requires Inv(cfg, s) && j in s.queue && !Eligible(cfg, s.active, j)
    ensures w < |s.workers| && (s.workers[w].Running? || s.workers[w].Sent?)
    ensures s.workers[w].job.group == j.group
  {
    w := SomeoneCounted(Holding(j.group), s.workers);
  }

  // A step of a worker exists whenever it is not parked or returned: the queue that a removal leaves
  // can always be arranged as a heap.

  ghost predicate Ascending(q: seq<Job>) {
    forall i, j :: 0 <= i < j < |q| ==> !Less(q[j], q[i])
  }

  lemma AppendAscending(q: seq<Job>, job: Job)
    requires Ascending(q) && forall i :: 0 <= i < |q| ==> !Less(job, q[i])
    ensures Ascending(q + [job])
  {
  }

  lemma {:induction false} InsertAscending(q: seq<Job>, job: Job) returns (r: seq<Job>)
    requires Ascending(q)
    ensures Ascending(r) && multiset(r) == multiset(q) + multiset{job}
  {
    if q == [] || !Less(job, q[|q| - 1]) {
      AppendAscending(q, job);
      r := q + [job];
    } else {
      var n := |q| - 1;
      var init := InsertAscending(q[..n], job);
      MembersAfterPush(q[..n], job, init);
      forall i | 0 <= i < |init| ensures !Less(q[n], init[i]) {
        assert init[i] in init;
        if init[i] != job { assert init[i] in q[..n]; }
      }
      AppendAscending(init, q[n]);
      r := init + [q[n]];
      assert q == q[..n] + [q[n]];
    }
  }

  lemma {:induction false} AscendingCopy(q: seq<Job>) returns (r: seq<Job>)
    ensures Ascending(r) && multiset(r) == multiset(q)
  {
    r := [];
    if q != [] {
      var n := |q| - 1;
      var init := AscendingCopy(q[..n]);
      r := InsertAscending(init, q[n]);
      assert q == q[..n] + [q[n]];
    }
  }

  lemma RemovalCanBeHeap(q: seq<Job>, i: nat) returns (r: seq<Job>)
    requires i < |q|
    ensures HeapOrdered(r) && multiset(r) == multiset(q) - multiset{q[i]}
  {
    r := AscendingCopy(q[..i] + q[i + 1..]);
    assert q == q[..i] + [q[i]] + q[i + 1..];
  }

  lemma CheckEnabled(cfg: Config, s: State, w: nat) returns (s': State)
    requires w < |s.workers| && s.workers[w].Ready?
    ensures CheckStep(cfg, s, w, s')
  {
    if NoneEligible(cfg, s.active, s.queue) {
      s' := s.(workers := s.workers[w := if s.closed && s.queue == [] then Exited else Waiting]);
    } else {
      SelectionExists(cfg, s);
      var i: nat :| Selects(cfg, s, i);
      var q := RemovalCanBeHeap(s.queue, i);
      s' := s.(queue := q, active := Acquired(s.active, s.queue[i].group),
               workers := s.workers[w := Running(s.queue[i])],
               starts := s.starts + [Start(s.queue[i], s.counter)]);
      assert StartStep(cfg, s, w, i, s');
    }
  }

  /** A worker that is neither parked nor returned has a step to take. */
  lemma CanStepMeansEnabled(cfg: Config, s: State, w: nat) returns (e: Event, s': State)
    requires CanStep(s, w)
    ensures WorkerEvent(e) && Next(cfg, s, e, s')
  {
    match s.workers[w]
    case Ready =>
      e := Check(w);
      s' := CheckEnabled(cfg, s, w);
    case Running(job) =>
      e, s' := Deliver(w), s.(workers := s.workers[w := Sent(job)], delivered := s.delivered + [job]);
    case Sent(job) =>
      e, s' := Finish(w), s.(active := Released(s.active, job.group), workers := Broadcast(s.workers[w := Ready]));
  }

  /** Some worker has a step to take. */
  ghost predicate WorkerEnabled(cfg: Config, s: State) {
    exists e: Event, s': State :: WorkerEvent(e) && Next(cfg, s, e, s')
  }

  lemma EnabledExactlyWhenCanStep(cfg: Config, s: State)
    ensures WorkerEnabled(cfg, s) <==> exists w :: CanStep(s, w)
  {
    if w: nat :| CanStep(s, w) {
      var e, s' := CanStepMeansEnabled(cfg, s, w);
    }
    if e: Event, s': State :| WorkerEvent(e) && Next(cfg, s, e, s') {
      assert CanStep(s, e.w);
    }
  }

  /** Deadlock freedom: in every reachable state of a pool with at least one worker, a non-empty
      queue means that some worker has a step, and so does a closed dispatcher until every worker
      has returned. A queue of blocked jobs means that some worker holds a job, and a parked worker
      that was not notified has no eligible job to take and never sits at a closed empty queue. */
  lemma DeadlockFree(cfg: Config, es: seq<Event>, ss: seq<State>, i: nat)
    requires IsRun(cfg, es, ss) && i < |ss| && |ss[0].workers| > 0
    ensures ss[i].queue != [] ==> WorkerEnabled(cfg, ss[i])
    ensures ss[i].closed ==> AllExited(ss[i]) || WorkerEnabled(cfg, ss[i])
    ensures ss[i].queue != [] && NoneEligible(cfg, ss[i].active, ss[i].queue) ==>
              exists w :: 0 <= w < |ss[i].workers| && (ss[i].workers[w].Running? || ss[i].workers[w].Sent?)
    ensures forall w :: 0 <= w < |ss[i].workers| && ss[i].workers[w].Waiting? ==>
              NoneEligible(cfg, ss[i].active, ss[i].queue) && (ss[i].closed ==> ss[i].queue != [])
  {
    InvAlongRun(cfg, es, ss, i);
    var s := ss[i];
    EnabledExactlyWhenCanStep(cfg, s);
    if s.queue != [] && NoneEligible(cfg, s.active, s.queue) {
      var w := BlockedMeansSomeoneRuns(cfg, s, s.queue[0]);
    }
    if s.queue != [] {
      if s.workers[0].Waiting? {
        var w := BlockedMeansSomeoneRuns(cfg, s, s.queue[0]);
        assert CanStep(s, w);
      } else {
        assert CanStep(s, 0);
      }
    } else if s.closed && !AllExited(s) {
      var w :| 0 <= w < |s.workers| && !s.workers[w].Exited?;
      assert CanStep(s, w);
    }
  }

  /** What the jobs of a state still have ahead of them: a start, a send and a release each. */
  ghost function JobSteps(s: State): nat {
    3 * |s.queue| + 2 * Total(RunningNow, s.workers) + Total(SentNow, s.workers)
  }

  /** Work left: the steps of the jobs, between any two of which each worker can at most look at the
      queue once. */
  ghost function Potential(s: State): nat {
    JobSteps(s) * (|s.workers| + 1) + Total(ReadyNow, s.workers)
  }

  ghost function WorkerSteps(es: seq<Event>): nat {
    if es == [] then 0 else WorkerSteps(es[..|es| - 1]) + if WorkerEvent(es[|es| - 1]) then 1 else 0
  }

  ghost function Closes(es: seq<Event>): nat {
    if es == [] then 0 else Closes(es[..|es| - 1]) + if es[|es| - 1].Close? then 1 else 0
  }

  /** One job step done pays for every worker looking at the queue again. */
  lemma JobStepPays(s: State, s': State)
    requires |s'.workers| == |s.workers| && JobSteps(s') + 1 == JobSteps(s)
    ensures Potential(s') < Potential(s)
  {
    TotalAtMostAll(ReadyNow, s'.workers);
    Scale(JobSteps(s'), 1, |s.workers| + 1);
  }

  lemma CheckLowersPotential(cfg: Config, s: State, w: nat, s': State)
    requires CheckStep(cfg, s, w, s')
    ensures Potential(s') < Potential(s)
  {
    UpdateCounts(s.workers, w, s'.workers[w]);
    if !NoneEligible(cfg, s.active, s.queue) {
      var i: nat :| StartStep(cfg, s, w, i, s');
      LengthAfterRemove(s.queue, i, s'.queue);
      JobStepPays(s, s');
    }
  }

  lemma FinishLowersPotential(s: State, w: nat, s': State)
    requires FinishStep(s, w, s')
    ensures Potential(s') < Potential(s)
  {
    FinishCounts(s, w);
    JobStepPays(s, s');
  }

  /** After close, a worker step lowers the potential; a further Shutdown call only wakes workers. */
  lemma StepLowersPotential(cfg: Config, s: State, e: Event, s': State)
    requires s.closed && Next(cfg, s, e, s')
    ensures s'.closed && |s'.workers| == |s.workers|
    ensures WorkerEvent(e) ==> Potential(s') < Potential(s)
    ensures e.Close? ==> Potential(s') <= Potential(s) + |s.workers|
    ensures e.Submit? ==> s' == s
  {
    match e
    case Submit(_, _) =>
    case Check(w) => CheckLowersPotential(cfg, s, w, s');
    case Deliver(w) =>
      UpdateCounts(s.workers, w, s'.workers[w]);
      JobStepPays(s, s');
    case Finish(w) => FinishLowersPotential(s, w, s');
    case Close =>
      BroadcastKeepsCounts(s.workers);
      TotalAtMostAll(ReadyNow, s'.workers);
  }

  lemma Scale(a: nat, b: nat, n: nat)
    ensures (a + b) * n == a * n + b * n
  {
  }

  /** Drain: after close only boundedly many worker steps remain, whatever the interleaving and
      however often Shutdown is called again. */
  lemma {:induction false} DrainBound(cfg: Config, es: seq<Event>, ss: seq<State>)
    requires |ss| == |es| + 1 && Steps(cfg, es, ss) && ss[0].closed
    ensures ss[|es|].closed && |ss[|es|].workers| == |ss[0].workers|
    ensures WorkerSteps(es) + Potential(ss[|es|]) <= Potential(ss[0]) + Closes(es) * |ss[0].workers|
  {
    if es != [] {
      var n := |es| - 1;
      assert Steps(cfg, es[..n], ss[..n + 1]);
      DrainBound(cfg, es[..n], ss[..n + 1]);
      assert ss[..n + 1][n] == ss[n] && ss[..n + 1][0] == ss[0];
      assert Next(cfg, ss[n], es[n], ss[n + 1]);
      StepPays(cfg, ss[n], es[n], ss[n + 1]);
      Scale(Closes(es[..n]), Closes(es) - Closes(es[..n]), |ss[0].workers|);
    }
  }

  /** One step, in the terms of the bound. */
  lemma StepPays(cfg: Config, s: State, e: Event, s': State)
    requires s.closed && Next(cfg, s, e, s')
    ensures s'.closed && |s'.workers| == |s.workers|
    ensures (if WorkerEvent(e) then 1 else 0) + Potential(s') <= Potential(s) + (if e.Close? then 1 else 0) * |s.workers|
  {
    StepLowersPotential(cfg, s, e, s');
  }

  /** Once every worker of a non-empty pool has returned, every accepted job was delivered,
      exactly once, and nothing else was. */
  lemma DrainedMeansDelivered(cfg: Config, es: seq<Event>, ss: seq<State>, i: nat)
    requires IsRun(cfg, es, ss) && i < |ss| && |ss[0].workers| > 0 && AllExited(ss[i])
    ensures ss[i].queue == [] && multiset(ss[i].delivered) == multiset(ss[i].accepted)
  {
    InvAlongRun(cfg, es, ss, i);
    assert ss[i].workers[0].Exited?;
    forall j ensures multiset(ss[i].delivered)[j] == multiset(ss[i].accepted)[j] {
      if Total(Executing(j), ss[i].workers) > 0 {
        var w := SomeoneCounted(Executing(j), ss[i].workers);
        assert false;
      }
    }
  }

  /** Shutdown: a closed run in which no worker has a step left has returned every worker and
      delivered every accepted job. With `DrainBound` every drain comes to that point. */
  lemma ShutdownCompletes(cfg: Config, es: seq<Event>, ss: seq<State>)
    requires IsRun(cfg, es, ss) && |ss[0].workers| > 0
    requires ss[|es|].closed && !WorkerEnabled(cfg, ss[|es|])
    ensures AllExited(ss[|es|]) && ss[|es|].queue == []
    ensures multiset(ss[|es|].delivered) == multiset(ss[|es|].accepted)
  {
    DeadlockFree(cfg, es, ss, |es|);
    DrainedMeansDelivered(cfg, es, ss, |es|);
  }

  /** From every closed state that satisfies the invariant a drain exists: worker steps alone lead to
      a state in which every worker has returned. */
  lemma {:induction false} DrainExists(cfg: Config, s: State) returns (es: seq<Event>, ss: seq<State>)
    requires Inv(cfg, s) && s.closed && |s.workers| > 0
    ensures |ss| == |es| + 1 && ss[0] == s && Steps(cfg, es, ss) && AllExited(ss[|es|])
    ensures forall i :: 0 <= i < |es| ==> WorkerEvent(es[i])
    decreases Potential(s)
  {
    if AllExited(s) {
      es, ss := [], [s];
    } else {
      ClosedCanStep(cfg, s);
      var e: Event, t: State :| WorkerEvent(e) && Next(cfg, s, e, t);
      NextKeepsInv(cfg, s, e, t);
      StepLowersPotential(cfg, s, e, t);
      var es', ss' := DrainExists(cfg, t);
      PrependStep(cfg, s, e, es', ss');
      es, ss := [e] + es', [s] + ss';
    }
  }

  lemma ClosedCanStep(cfg: Config, s: State)
    requires Inv(cfg, s) && s.closed && !AllExited(s)
    ensures WorkerEnabled(cfg, s)
  {
    EnabledExactlyWhenCanStep(cfg, s);
    var w :| 0 <= w < |s.workers| && !s.workers[w].Exited?;
    if s.workers[w].Waiting? {
      var v := BlockedMeansSomeoneRuns(cfg, s, s.queue[0]);
      assert CanStep(s, v);
    } else {
      assert CanStep(s, w);
    }
  }

  lemma PrependStep(cfg: Config, s: State, e: Event, es: seq<Event>, ss: seq<State>)
    requires |ss| == |es| + 1 && Steps(cfg, es, ss) && Next(cfg, s, e, ss[0])
    ensures Steps(cfg, [e] + es, [s] + ss)
  {
    forall i | 0 <= i < |es| + 1 ensures Next(cfg, ([s] + ss)[i], ([e] + es)[i], ([s] + ss)[i + 1]) {
      if i > 0 { assert Next(cfg, ss[i - 1], es[i - 1], ss[i]); }
    }
  }

  // ---- the order in which jobs leave ----

  /** `dequeue` finds a job exactly when one is eligible, and then the choice is unique. */
  lemma SelectionExists(cfg: Config, s: State)
    ensures NoneEligible(cfg, s.active, s.queue) <==> !exists i: nat :: Selects(cfg, s, i)
    ensures forall i: nat, k: nat :: Selects(cfg, s, i) && Selects(cfg, s, k) ==> i == k
  {
    if !NoneEligible(cfg, s.active, s.queue) {
      var i: nat := 0;
      while !Eligible(cfg, s.active, s.queue[i])
        invariant i < |s.queue| && exists k :: i <= k < |s.queue| && Eligible(cfg, s.active, s.queue[k])
        invariant forall k :: 0 <= k < i ==> !Eligible(cfg, s.active, s.queue[k])
        decreases |s.queue| - i
      {
        i := i + 1;
      }
      assert Selects(cfg, s, i);
    }
  }

  /** The chosen job has no eligible ancestor in the heap, and it is the (priority, sequence) best
      of the whole queue whenever the root is eligible. */
  lemma SelectionQuality(cfg: Config, s: State, i: nat)
    requires HeapOrdered(s.queue) && Selects(cfg, s, i)
    ensures forall a: nat :: IsAncestor(a, i) && a != i ==> a < i && !Eligible(cfg, s.active, s.queue[a])
    ensures Eligible(cfg, s.active, s.queue[0]) ==> i == 0 && forall j :: j in s.queue ==> RanksFirst(s.queue[i], j)
  {
    forall a: nat | IsAncestor(a, i) && a != i ensures a < i && !Eligible(cfg, s.active, s.queue[a]) {
      AncestorsComeEarlier(a, i);
    }
    if Eligible(cfg, s.active, s.queue[0]) {
      RootIsBest(s.queue);
    }
  }

  // ---- when the best eligible job is taken ----

  /** A run of a pool of `pool` workers ends in `s`. */
  ghost predicate Reached(cfg: Config, pool: nat, s: State) {
    exists es: seq<Event>, ss: seq<State> :: IsRun(cfg, es, ss) && |ss[0].workers| == pool && ss[|es|] == s
  }

  lemma ReachedInit(cfg: Config, s: State)
    requires Init(s)
    ensures Reached(cfg, |s.workers|, s)
  {
    var es: seq<Event>, ss := [], [s];
    assert IsRun(cfg, es, ss) && ss[|es|] == s;
  }

  lemma ReachedStep(cfg: Config, pool: nat, s: State, e: Event, s': State)
    requires Reached(cfg, pool, s) && Next(cfg, s, e, s')
    ensures Reached(cfg, pool, s')
  {
    var es: seq<Event>, ss: seq<State> :| IsRun(cfg, es, ss) && |ss[0].workers| == pool && ss[|es|] == s;
    var es', ss' := es + [e], ss + [s'];
    forall i | 0 <= i < |es'| ensures Next(cfg, ss'[i], es'[i], ss'[i + 1]) {
      if i < |es| { assert Next(cfg, ss[i], es[i], ss[i + 1]); }
    }
    assert IsRun(cfg, es', ss') && ss'[|es'|] == s';
  }

  lemma ReachedSound(cfg: Config, pool: nat, s: State)
    requires Reached(cfg, pool, s)
    ensures Inv(cfg, s) && |s.workers| == pool && |s.queue| <= cfg.queueSize
  {
    var es: seq<Event>, ss: seq<State> :| IsRun(cfg, es, ss) && |ss[0].workers| == pool && ss[|es|] == s;
    InvAlongRun(cfg, es, ss, |es|);
    QueueBounded(cfg, es, ss, |es|);
  }

  ghost predicate BestEligible(cfg: Config, s: State, job: Job) {
    forall j :: j in s.queue && Eligible(cfg, s.active, j) ==> RanksFirst(job, j)
  }

  /** In every run of such a pool, every job a worker starts is the best eligible one at that moment. */
  ghost predicate TakesBest(cfg: Config, pool: nat) {
    forall s: State, w: nat, s': State ::
      Reached(cfg, pool, s) && CheckStep(cfg, s, w, s') && s'.starts != s.starts ==>
        s'.starts != [] && BestEligible(cfg, s, s'.starts[|s'.starts| - 1].job)
  }

  lemma {:induction false} IdleNotHolding(m: Metric, ws: seq<Phase>, w: nat)
    requires m.Holding? && w < |ws| && ws[w].Ready?
    ensures Total(m, ws) < |ws|
  {
    var n := |ws| - 1;
    TotalAtMostAll(m, ws[..n]);
    if w < n { IdleNotHolding(m, ws[..n], w); }
  }

  /** While a worker looks at the queue, a group whose limit is no less than the pool is not full. */
  lemma RoomForAll(cfg: Config, s: State, w: nat, job: Job)
    requires Inv(cfg, s) && w < |s.workers| && s.workers[w].Ready?
    requires forall g :: Limited(cfg.limits, g) ==> cfg.limits[g] >= |s.workers|
    ensures Eligible(cfg, s.active, job)
  {
    if Limited(cfg.limits, job.group) { IdleNotHolding(Holding(job.group), s.workers, w); }
  }

  /** Either the root is eligible, or there is at most one other job to choose from. */
  lemma EasyChoice(cfg: Config, s: State, i: nat)
    requires HeapOrdered(s.queue) && Selects(cfg, s, i) && (Eligible(cfg, s.active, s.queue[0]) || |s.queue| < 3)
    ensures BestEligible(cfg, s, s.queue[i])
  {
    SelectionQuality(cfg, s, i);
  }

  lemma TakesBestWhenEasy(cfg: Config, pool: nat, s: State, w: nat, s': State)
    requires (forall g :: Limited(cfg.limits, g) ==> cfg.limits[g] >= pool) || cfg.queueSize < 3
    requires Reached(cfg, pool, s) && CheckStep(cfg, s, w, s') && s'.starts != s.starts
    ensures s'.starts != [] && BestEligible(cfg, s, s'.starts[|s'.starts| - 1].job)
  {
    ReachedSound(cfg, pool, s);
    var i: nat :| StartStep(cfg, s, w, i, s');
    if cfg.queueSize >= 3 { RoomForAll(cfg, s, w, s.queue[0]); }
    EasyChoice(cfg, s, i);
  }

  // The failing run: as many jobs of the group as its limit allows are started, then three more jobs
  // are submitted, and a free worker looks at the queue.

  function JobOf(g: string, k: nat): Job { Job(3, g, k + 1) }

  /** `n` jobs of the group were submitted and started, one by one, by the first `n` workers. */
  ghost function Filled(g: string, n: nat, pool: nat): (s: State)
    requires n <= pool
    ensures |s.workers| == pool && |s.accepted| == |s.starts| == s.counter == n
    ensures s.queue == [] && s.active == (if n == 0 then map[] else map[g := n]) && !s.closed && s.delivered == []
    ensures forall w :: 0 <= w < pool ==> s.workers[w] == if w < n then Running(JobOf(g, w)) else Ready
    ensures forall k :: 0 <= k < n ==> s.accepted[k] == JobOf(g, k) && s.starts[k] == Start(JobOf(g, k), k + 1)
  {
    State([], if n == 0 then map[] else map[g := n], n, false,
          seq(pool, w => if 0 <= w < n then Running(JobOf(g, w)) else Ready),
          seq(n, (k: nat) => JobOf(g, k)), seq(n, (k: nat) => Start(JobOf(g, k), k + 1)), [])
  }

  /** The job in front is queued after the earlier ones were started. */
  ghost function Queued(s: State, jobs: seq<Job>): State {
    s.(queue := jobs, counter := s.counter + |jobs|, accepted := s.accepted + jobs)
  }

  lemma FillOneMore(cfg: Config, g: string, n: nat, pool: nat)
    requires Limited(cfg.limits, g) && n < pool && n < cfg.limits[g] && cfg.queueSize > 0
    ensures var s, t := Filled(g, n, pool), Queued(Filled(g, n, pool), [JobOf(g, n)]);
            SubmitStep(cfg, s, 3, g, t) && CheckStep(cfg, t, n, Filled(g, n + 1, pool))
  {
    var s, t, s' := Filled(g, n, pool), Queued(Filled(g, n, pool), [JobOf(g, n)]), Filled(g, n + 1, pool);
    assert Broadcast(s.workers) == s.workers;
    assert Selects(cfg, t, 0);
    assert s'.workers == t.workers[n := Running(JobOf(g, n))];
    assert s'.starts == t.starts + [Start(JobOf(g, n), t.counter)];
    assert s'.accepted == t.accepted;
    assert StartStep(cfg, t, n, 0, s');
  }

  lemma {:induction false} FilledIsReached(cfg: Config, g: string, n: nat, pool: nat)
    requires Limited(cfg.limits, g) && n <= pool && n <= cfg.limits[g] && cfg.queueSize > 0
    ensures Reached(cfg, pool, Filled(g, n, pool))
  {
    if n == 0 {
      ReachedInit(cfg, Filled(g, 0, pool));
    } else {
      FilledIsReached(cfg, g, n - 1, pool);
      FillOneMore(cfg, g, n - 1, pool);
      var s, t := Filled(g, n - 1, pool), Queued(Filled(g, n - 1, pool), [JobOf(g, n - 1)]);
      ReachedStep(cfg, pool, s, Submit(3, g), t);
      ReachedStep(cfg, pool, t, Check(n - 1), Filled(g, n, pool));
    }
  }

  /** A job of the full group in front, a job of priority 1 behind it, and then one of priority 2. */
  ghost function Crowd(g: string, n: nat): seq<Job> {
    [Job(3, g, n + 1), Job(1, "", n + 2), Job(2, "", n + 3)]
  }

  lemma OneMoreQueued(cfg: Config, pool: nat, s: State, jobs: seq<Job>, job: Job)
    requires Reached(cfg, pool, Queued(s, jobs)) && !s.closed && s.queue == [] && |jobs| < cfg.queueSize && Broadcast(s.workers) == s.workers
    requires job.number == s.counter + |jobs| + 1 && HeapOrdered(jobs + [job])
    ensures Reached(cfg, pool, Queued(s, jobs + [job]))
  {
    assert s.accepted + (jobs + [job]) == (s.accepted + jobs) + [job];
    ReachedStep(cfg, pool, Queued(s, jobs), Submit(job.priority, job.group), Queued(s, jobs + [job]));
  }

  lemma PairIsReached(cfg: Config, g: string, pool: nat)
    requires Limited(cfg.limits, g) && cfg.limits[g] < pool && cfg.queueSize >= 2
    ensures Reached(cfg, pool, Queued(Filled(g, cfg.limits[g], pool), Crowd(g, cfg.limits[g])[..2]))
  {
    var n := cfg.limits[g];
    var s, c := Filled(g, n, pool), Crowd(g, n);
    FilledIsReached(cfg, g, n, pool);
    assert Broadcast(s.workers) == s.workers && Queued(s, []) == s;
    OneMoreQueued(cfg, pool, s, [], c[0]);
    assert [] + [c[0]] == c[..1] && c[..1] + [c[1]] == c[..2];
    OneMoreQueued(cfg, pool, s, c[..1], c[1]);
  }

  lemma CrowdIsReached(cfg: Config, g: string, pool: nat)
    requires Limited(cfg.limits, g) && cfg.limits[g] < pool && cfg.queueSize >= 3
    ensures Reached(cfg, pool, Queued(Filled(g, cfg.limits[g], pool), Crowd(g, cfg.limits[g])))
  {
    var n := cfg.limits[g];
    var s, c := Filled(g, n, pool), Crowd(g, n);
    PairIsReached(cfg, g, pool);
    assert Broadcast(s.workers) == s.workers;
    assert c[..2] + [c[2]] == c;
    OneMoreQueued(cfg, pool, s, c[..2], c[2]);
  }

  lemma StartSelected(cfg: Config, pool: nat, s: State, w: nat, i: nat) returns (s': State)
    requires Reached(cfg, pool, s) && w < |s.workers| && s.workers[w].Ready? && Selects(cfg, s, i)
    ensures CheckStep(cfg, s, w, s') && StartStep(cfg, s, w, i, s') && Reached(cfg, pool, s')
  {
    s' := CheckEnabled(cfg, s, w);
    SelectionExists(cfg, s);
    ReachedStep(cfg, pool, s, Check(w), s');
  }

  /** The free worker starts the job of priority 1 although the one of priority 2 is eligible. */
  lemma CrowdSkipsBetterJob(cfg: Config, g: string, pool: nat) returns (s: State, s': State)
    requires Limited(cfg.limits, g) && cfg.limits[g] < pool && cfg.queueSize >= 3
    ensures Reached(cfg, pool, s) && CheckStep(cfg, s, cfg.limits[g], s')
    ensures |s.queue| == 3 && s'.starts == s.starts + [Start(s.queue[1], s.counter)]
    ensures Eligible(cfg, s.active, s.queue[2]) && !RanksFirst(s.queue[1], s.queue[2])
  {
    var n := cfg.limits[g];
    CrowdIsReached(cfg, g, pool);
    s := Queued(Filled(g, n, pool), Crowd(g, n));
    assert s.queue == Crowd(g, n);
    assert Selects(cfg, s, 1);
    s' := StartSelected(cfg, pool, s, n, 1);
  }

  /** Array order is not rank order: over all runs of a pool, every started job is the best eligible
      one exactly if no group can be full while a worker is free, or the queue is too short to choose
      wrongly. */
  lemma TakesBestExactlyWhen(cfg: Config, pool: nat)
    ensures TakesBest(cfg, pool) <==>
            (forall g :: Limited(cfg.limits, g) ==> cfg.limits[g] >= pool) || cfg.queueSize < 3
  {
    if (forall g :: Limited(cfg.limits, g) ==> cfg.limits[g] >= pool) || cfg.queueSize < 3 {
      forall s: State, w: nat, s': State
        | Reached(cfg, pool, s) && CheckStep(cfg, s, w, s') && s'.starts != s.starts
        ensures s'.starts != [] && BestEligible(cfg, s, s'.starts[|s'.starts| - 1].job)
      {
        TakesBestWhenEasy(cfg, pool, s, w, s');
      }
    } else {
      var g :| Limited(cfg.limits, g) && cfg.limits[g] < pool;
      var s, s' := CrowdSkipsBetterJob(cfg, g, pool);
      assert s.queue[2] in s.queue;
      assert !BestEligible(cfg, s, s.queue[1]);
    }
  }

  /** Starts are in order: a later start that ranks first had not been submitted at the earlier one,
      and the same goes for the jobs still queued. */
  ghost predicate InOrder(s: State) {
    && (forall j :: j in s.queue ==> j.number <= s.counter)
    && (forall a :: 0 <= a < |s.starts| ==> s.starts[a].job.number <= s.starts[a].clock <= s.counter)
    && (forall a, j :: 0 <= a < |s.starts| && j in s.queue ==>
          RanksFirst(s.starts[a].job, j) || j.number > s.starts[a].clock)
    && (forall a, b :: 0 <= a < b < |s.starts| ==>
          RanksFirst(s.starts[a].job, s.starts[b].job) || s.starts[b].job.number > s.starts[a].clock)
  }

  lemma MembersAfterPush(q: seq<Job>, job: Job, q': seq<Job>)
    requires multiset(q') == multiset(q) + multiset{job}
    ensures forall j :: j in q' ==> j in q || j == job
  {
    forall j | j in q' ensures j in q || j == job { assert j in multiset(q'); }
  }

  lemma MembersAfterRemove(q: seq<Job>, job: Job, q': seq<Job>)
    requires multiset(q') == multiset(q) - multiset{job}
    ensures forall j :: j in q' ==> j in q
  {
    forall j | j in q' ensures j in q { assert j in multiset(q'); }
  }

  lemma SubmitKeepsOrder(s: State, job: Job, q': seq<Job>, ws: seq<Phase>)
    requires InOrder(s) && job.number == s.counter + 1 && multiset(q') == multiset(s.queue) + multiset{job}
    ensures InOrder(s.(queue := q', counter := s.counter + 1, accepted := s.accepted + [job], workers := ws))
  {
    MembersAfterPush(s.queue, job, q');
  }

  lemma StartKeepsOrder(cfg: Config, s: State, w: nat, i: nat, s': State)
    requires HeapOrdered(s.queue) && InOrder(s) && w < |s.workers| && StartStep(cfg, s, w, i, s')
    requires Eligible(cfg, s.active, s.queue[0])
    ensures InOrder(s')
  {
    SelectionQuality(cfg, s, i);
    MembersAfterRemove(s.queue, s.queue[i], s'.queue);
  }

  lemma StepKeepsOrder(cfg: Config, s: State, e: Event, s': State)
    requires HeapOrdered(s.queue) && InOrder(s) && Next(cfg, s, e, s')
    requires e.Check? && !NoneEligible(cfg, s.active, s.queue) ==> Eligible(cfg, s.active, s.queue[0])
    ensures InOrder(s')
  {
    match e
    case Submit(priority, group) =>
      if s' != s {
        SubmitKeepsOrder(s, Job(priority, group, s.counter + 1), s'.queue, Broadcast(s.workers));
      }
    case Check(w) =>
      if !NoneEligible(cfg, s.active, s.queue) {
        var i: nat :| StartStep(cfg, s, w, i, s');
        StartKeepsOrder(cfg, s, w, i, s');
      }
    case Deliver(w) =>
    case Finish(w) =>
    case Close =>
  }

  lemma RootIsTaken(cfg: Config, s: State, w: nat)
    requires Inv(cfg, s) && w < |s.workers| && s.workers[w].Ready? && |s.queue| <= cfg.queueSize
    requires (forall g :: Limited(cfg.limits, g) ==> cfg.limits[g] >= |s.workers|) || cfg.queueSize < 2
    requires !NoneEligible(cfg, s.active, s.queue)
    ensures Eligible(cfg, s.active, s.queue[0])
  {
    if cfg.queueSize >= 2 { RoomForAll(cfg, s, w, s.queue[0]); }
  }

  lemma {:induction false} InOrderAlongRun(cfg: Config, es: seq<Event>, ss: seq<State>, i: nat)
    requires IsRun(cfg, es, ss) && i < |ss|
    requires (forall g :: Limited(cfg.limits, g) ==> cfg.limits[g] >= |ss[0].workers|) || cfg.queueSize < 2
    ensures InOrder(ss[i])
  {
    if i > 0 {
      InOrderAlongRun(cfg, es, ss, i - 1);
      InvAlongRun(cfg, es, ss, i - 1);
      QueueBounded(cfg, es, ss, i - 1);
      var s, e := ss[i - 1], es[i - 1];
      if e.Check? && !NoneEligible(cfg, s.active, s.queue) { RootIsTaken(cfg, s, e.w); }
      StepKeepsOrder(cfg, s, e, ss[i]);
    }
  }

  /** Priority, then first come first served: of two starts the later one has a higher priority only
      if it was submitted after the earlier one had started, and with the same priority it has the
      later number. */
  ghost predicate StartOrder(x: Start, y: Start) {
    && (y.job.priority > x.job.priority ==> y.job.number > x.clock)
    && (y.job.priority == x.job.priority ==> y.job.number >= x.job.number)
  }

  ghost predicate StartsInOrder(cfg: Config, pool: nat) {
    forall s: State, a: nat, b: nat ::
      Reached(cfg, pool, s) && a < b < |s.starts| ==> StartOrder(s.starts[a], s.starts[b])
  }

  lemma ReachedInOrder(cfg: Config, pool: nat, s: State, a: nat, b: nat)
    requires (forall g :: Limited(cfg.limits, g) ==> cfg.limits[g] >= pool) || cfg.queueSize < 2
    requires Reached(cfg, pool, s) && a < b < |s.starts|
    ensures StartOrder(s.starts[a], s.starts[b])
  {
    var es: seq<Event>, ss: seq<State> :| IsRun(cfg, es, ss) && |ss[0].workers| == pool && ss[|es|] == s;
    InOrderAlongRun(cfg, es, ss, |es|);
  }

  lemma SoleRemains(q: seq<Job>, a: Job, b: Job)
    requires multiset(q) == multiset([a, b]) - multiset{b}
    ensures q == [a]
  {
    assert multiset([a, b]) - multiset{b} == multiset{a};
    assert |multiset(q)| == |q|;
    assert q[0] in multiset(q);
  }

  /** A free worker starts a job of priority 1 past a job of priority 3 whose group is full. */
  lemma LesserJobStarts(cfg: Config, g: string, pool: nat) returns (s: State)
    requires Limited(cfg.limits, g) && cfg.limits[g] < pool && cfg.queueSize >= 2
    ensures var n := cfg.limits[g];
            && Reached(cfg, pool, s) && s.queue == [Job(3, g, n + 1)] && s.counter == n + 2
            && s.active == map[g := n] && |s.workers| == pool && s.workers[0] == Running(JobOf(g, 0))
            && |s.starts| == n + 1 && s.starts[n] == Start(Job(1, "", n + 2), n + 2)
  {
    var n := cfg.limits[g];
    PairIsReached(cfg, g, pool);
    var t := Queued(Filled(g, n, pool), Crowd(g, n)[..2]);
    assert t.queue == [Job(3, g, n + 1), Job(1, "", n + 2)];
    assert Selects(cfg, t, 1);
    s := StartSelected(cfg, pool, t, n, 1);
    SoleRemains(s.queue, Job(3, g, n + 1), Job(1, "", n + 2));
  }

  lemma GreaterJobFollows(cfg: Config, g: string, pool: nat) returns (s: State, a: nat, b: nat)
    requires Limited(cfg.limits, g) && cfg.limits[g] < pool && cfg.queueSize >= 2
    ensures Reached(cfg, pool, s) && a < b < |s.starts| && !StartOrder(s.starts[a], s.starts[b])
  {
    var n := cfg.limits[g];
    var t := LesserJobStarts(cfg, g, pool);
    var u := t.(workers := t.workers[0 := Sent(JobOf(g, 0))], delivered := t.delivered + [JobOf(g, 0)]);
    ReachedStep(cfg, pool, t, Deliver(0), u);
    var v := u.(active := Released(u.active, g), workers := Broadcast(u.workers[0 := Ready]));
    ReachedStep(cfg, pool, u, Finish(0), v);
    assert ActiveCount(v.active, g) == n - 1;
    assert Selects(cfg, v, 0);
    s := StartSelected(cfg, pool, v, 0, 0);
    a, b := n, n + 1;
  }

  /** Over all runs of a pool, jobs start by priority and then in order of submission exactly if no
      group can be full while a worker is free, or the queue holds one job at most. */
  lemma StartsInOrderExactlyWhen(cfg: Config, pool: nat)
    ensures StartsInOrder(cfg, pool) <==>
            (forall g :: Limited(cfg.limits, g) ==> cfg.limits[g] >= pool) || cfg.queueSize < 2
  {
    if (forall g :: Limited(cfg.limits, g) ==> cfg.limits[g] >= pool) || cfg.queueSize < 2 {
      forall s: State, a: nat, b: nat | Reached(cfg, pool, s) && a < b < |s.starts|
        ensures StartOrder(s.starts[a], s.starts[b])
      {
        ReachedInOrder(cfg, pool, s, a, b);
      }
    } else {
      var g :| Limited(cfg.limits, g) && cfg.limits[g] < pool;
      var s, a, b := GreaterJobFollows(cfg, g, pool);
    }
  }

  /** The queue never holds more than its configured size. */
  lemma {:induction false} QueueBounded(cfg: Config, es: seq<Event>, ss: seq<State>, i: nat)
    requires IsRun(cfg, es, ss) && i < |ss|
    ensures |ss[i].queue| <= cfg.queueSize
  {
    if i > 0 {
      QueueBounded(cfg, es, ss, i - 1);
      StepKeepsBound(cfg, ss[i - 1], es[i - 1], ss[i]);
    }
  }

  lemma StepKeepsBound(cfg: Config, s: State, e: Event, s': State)
    requires Next(cfg, s, e, s') && |s.queue| <= cfg.queueSize
    ensures |s'.queue| <= cfg.queueSize
  {
    if e.Submit? && s' != s {
      LengthAfterPush(s.queue, Job(e.priority, e.group, s.counter + 1), s'.queue);
    } else if e.Check? && !NoneEligible(cfg, s.active, s.queue) {
      var k: nat :| StartStep(cfg, s, e.w, k, s');
      LengthAfterRemove(s.queue, k, s'.queue);
    }
  }
}

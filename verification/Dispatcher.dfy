/** The `Dispatcher` object of `dispatcher/dispatcher.go`. Each method is one critical section of
    the source, proved to be the corresponding step of the step machine. */
module Dispatchers {
  import opened Prelude
  import opened PriorityHeap
  import opened Groups
  import opened DispatcherModel

  /** What `Submit` answers before it starts waiting on the result channel. */
  datatype Admission = Accepted(job: Job) | ShutDown | QueueFull

  class Dispatcher {
    const cfg: Config
    const queue: PriorityQueue
    const groups: GroupManager
    var counter: nat
    var closed: bool
    var workers: seq<Phase>
    ghost var accepted: seq<Job>
    ghost var starts: seq<Start>
    ghost var delivered: seq<Job>

    ghost function Snapshot(): State
      reads this, queue, groups
    {
      State(queue.items, groups.active, counter, closed, workers, accepted, starts, delivered)
    }

    ghost predicate Valid()
      reads this, queue, groups
    {
      groups.limits == cfg.limits && Inv(cfg, Snapshot())
    }

    /** `New`: an empty queue and `size` workers that have not looked at it yet. */
    constructor (cfg: Config, size: nat)
      ensures this.cfg == cfg && Init(Snapshot()) && |workers| == size && Valid()
      ensures fresh(queue) && fresh(groups)
    {
      this.cfg := cfg;
      queue := new PriorityQueue();
      groups := new GroupManager(cfg.limits);
      counter, closed, workers := 0, false, seq(size, _ => Ready);
      accepted, starts, delivered := [], [], [];
      new;
      InitEstablishesInv(cfg, Snapshot());
    }

    method Submit(priority: int, group: string) returns (answer: Admission)
      requires Valid()
      modifies this, queue
      ensures Valid() && Next(cfg, old(Snapshot()), Event.Submit(priority, group), Snapshot())
      ensures answer == if old(closed) then ShutDown
                        else if |old(queue.items)| >= cfg.queueSize then QueueFull
                        else Accepted(Job(priority, group, old(counter) + 1))
    {
      if closed { return ShutDown; }
      if |queue.items| >= cfg.queueSize { return QueueFull; }
      var job := Enqueue(priority, group);
      NextKeepsInv(cfg, old(Snapshot()), Event.Submit(priority, group), Snapshot());
      return Accepted(job);
    }

    /** The part of `Submit` for an accepted job. */
    method Enqueue(priority: int, group: string) returns (job: Job)
      requires !closed && |queue.items| < cfg.queueSize && HeapOrdered(queue.items)
      modifies this, queue
      ensures job == Job(priority, group, old(counter) + 1)
      ensures SubmitStep(cfg, old(Snapshot()), priority, group, Snapshot())
    {
      counter := counter + 1;
      job := Job(priority, group, counter);
      queue.Push(job);
      accepted := accepted + [job];
      workers := Broadcast(workers);
    }

    /** `dequeue`: the first eligible job in array order leaves the heap. */
    method Dequeue() returns (found: Option<Job>)
      requires groups.limits == cfg.limits && HeapOrdered(queue.items)
      modifies queue
      ensures found.None? ==> NoneEligible(cfg, groups.active, old(queue.items)) && queue.items == old(queue.items)
      ensures found.Some? ==> exists i: nat :: Selects(cfg, old(Snapshot()), i) && found.value == old(queue.items)[i]
      ensures found.Some? ==> HeapOrdered(queue.items) &&
                              multiset(queue.items) == multiset(old(queue.items)) - multiset{found.value}
    {
      var i := 0;
      while i < |queue.items|
        invariant i <= |queue.items| && queue.items == old(queue.items)
        invariant forall k :: 0 <= k < i ==> !Eligible(cfg, groups.active, queue.items[k])
      {
        var ok := groups.CanStart(queue.items[i].group);
        if ok {
          assert Selects(cfg, old(Snapshot()), i);
          var job := queue.Remove(i);
          return Some(job);
        }
        i := i + 1;
      }
      return None;
    }

    /** Worker `w` has taken `job` out of the queue of `before` and starts on it. */
    method StartJob(w: nat, job: Job, ghost before: State, ghost i: nat)
      requires Snapshot() == before.(queue := queue.items) && w < |workers|
      requires Selects(cfg, before, i) && job == before.queue[i]
      requires HeapOrdered(queue.items) && multiset(queue.items) == multiset(before.queue) - multiset{job}
      modifies this, groups
      ensures StartStep(cfg, before, w, i, Snapshot())
    {
      groups.Acquire(job.group);
      workers := workers[w := Running(job)];
      starts := starts + [Start(job, counter)];
    }

    /** One pass of worker `w` through the locked part of its loop. */
    method WorkerCheck(w: nat)
      requires Valid() && w < |workers| && workers[w].Ready?
      modifies this, queue, groups
      ensures Valid() && Next(cfg, old(Snapshot()), Check(w), Snapshot())
    {
      ghost var before := Snapshot();
      var found := Dequeue();
      if found.Some? {
        ghost var i: nat :| Selects(cfg, before, i) && found.value == before.queue[i];
        StartJob(w, found.value, before, i);
        assert !NoneEligible(cfg, before.active, before.queue);
      } else if closed && |queue.items| == 0 {
        workers := workers[w := Exited];
      } else {
        workers := workers[w := Waiting];
      }
      CheckKeepsInv(cfg, before, w, Snapshot());
    }

    /** The handler has returned and the result goes into the job's channel. */
    method SendResult(w: nat)
      requires Valid() && w < |workers| && workers[w].Running?
      modifies this
      ensures Valid() && Next(cfg, old(Snapshot()), Deliver(w), Snapshot())
    {
      delivered := delivered + [workers[w].job];
      workers := workers[w := Sent(workers[w].job)];
      NextKeepsInv(cfg, old(Snapshot()), Deliver(w), Snapshot());
    }

    method ReleaseGroup(w: nat)
      requires Valid() && w < |workers| && workers[w].Sent?
      modifies this, groups
      ensures Valid() && Next(cfg, old(Snapshot()), Finish(w), Snapshot())
    {
      groups.Release(workers[w].job.group);
      workers := Broadcast(workers[w := Ready]);
      NextKeepsInv(cfg, old(Snapshot()), Finish(w), Snapshot());
    }

    /** The locked part of `Shutdown`. */
    method Shutdown()
      requires Valid()
      modifies this
      ensures Valid() && Next(cfg, old(Snapshot()), Close, Snapshot())
    {
      closed := true;
      workers := Broadcast(workers);
      NextKeepsInv(cfg, old(Snapshot()), Close, Snapshot());
    }
  }
}

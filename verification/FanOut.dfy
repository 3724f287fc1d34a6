/** Bounded parallel execution: `FanOut` in `orchestrator/fanout.go` as a step machine of one
    launcher, one goroutine per stage, a counting semaphore and a cancellable context. */
module FanOut {
  import opened Prelude
  import opened Sums

  /** What a stage function returns. */
  datatype Result = Ok(output: string) | Err(error: string)

  /** What an output slot holds: the stage's own result, or the context error of a goroutine that
      never got to run its stage. */
  datatype Slot = FromStage(result: Result) | Cancelled

  /** Where the goroutine of a stage is. `Leaving` has written its slot; `holds` says whether it
      still has a semaphore token to give back. */
  datatype Phase = Unspawned | Selecting | Running | Leaving(holds: bool) | Done

  datatype Config = Config(maxConcurrency: int, failFast: bool)

  /** `written` lists the slot indices in the order they were written. */
  datatype State = State(
    phases: seq<Phase>, spawned: nat, tokens: nat, cancelled: bool,
    firstErr: Option<string>, slots: seq<Option<Slot>>, written: seq<nat>)

  /** `maxConcurrency`. */
  function Capacity(configured: int, total: nat): (c: nat)
    ensures c <= total && (total > 0 ==> c > 0)
    ensures 0 < configured <= total ==> c == configured
    ensures configured <= 0 || configured >= total ==> c == total
  {
    if configured <= 0 then total else if configured > total then total else configured
  }

  ghost predicate Init(n: nat, s: State) {
    s == State(seq(n, _ => Unspawned), 0, 0, false, None, seq(n, _ => None), [])
  }

  datatype Event = Spawn | Acquire(i: nat) | Skip(i: nat) | Return(i: nat, result: Result) | Leave(i: nat) | CancelParent

  ghost predicate Enabled(cfg: Config, s: State, e: Event)
    requires |s.slots| == |s.phases|
  {
    match e
    case Spawn => s.spawned < |s.phases|
    case Acquire(i) => i < |s.phases| && s.phases[i].Selecting? && s.tokens < Capacity(cfg.maxConcurrency, |s.phases|)
    case Skip(i) => i < |s.phases| && s.phases[i].Selecting? && s.cancelled
    case Return(i, _) => i < |s.phases| && s.phases[i].Running?
    case Leave(i) => i < |s.phases| && s.phases[i].Leaving? && (s.phases[i].holds ==> s.tokens > 0)
    case CancelParent => true
  }

  function Write(s: State, i: nat, slot: Slot, holds: bool): State
    requires i < |s.phases| == |s.slots|
  {
    s.(phases := s.phases[i := Leaving(holds)], slots := s.slots[i := Some(slot)], written := s.written + [i])
  }

  /** The effect of one atomic step. */
  ghost function Step(cfg: Config, s: State, e: Event): State
    requires |s.slots| == |s.phases| && Enabled(cfg, s, e)
  {
    match e
    case Spawn => s.(phases := s.phases[s.spawned := Selecting], spawned := s.spawned + 1)
    case Acquire(i) => s.(phases := s.phases[i := Running], tokens := s.tokens + 1)
    case Skip(i) => Write(s, i, Cancelled, false)
    case Return(i, result) =>
      var t := Write(s, i, FromStage(result), true);
      if result.Err? && cfg.failFast && s.firstErr.None? then t.(firstErr := Some(result.error), cancelled := true)
      else t
    case Leave(i) =>
      s.(phases := s.phases[i := Done], tokens := if s.phases[i].holds then s.tokens - 1 else s.tokens)
    case CancelParent => s.(cancelled := true)
  }

  // ---- weights ----

  /** What is counted over the goroutines: semaphore tokens held, stages running, steps ahead. */
  datatype Metric = TokensHeld | StagesRunning | StepsAhead

  function Weight(m: Metric, p: Phase): int {
    match m
    case TokensHeld => if p.Running? || p == Leaving(true) then 1 else 0
    case StagesRunning => if p.Running? then 1 else 0
    case StepsAhead => if p.Unspawned? then 4 else if p.Selecting? then 3 else if p.Running? then 2 else if p.Leaving? then 1 else 0
  }

  function Weights(m: Metric, ps: seq<Phase>): (ws: seq<int>)
    ensures |ws| == |ps| && forall i :: 0 <= i < |ps| ==> ws[i] == Weight(m, ps[i])
  {
    seq(|ps|, i requires 0 <= i < |ps| => Weight(m, ps[i]))
  }

  function Count(m: Metric, ps: seq<Phase>): int {
    Sum(Weights(m, ps))
  }

  lemma CountUpdate(m: Metric, ps: seq<Phase>, i: nat, p: Phase)
    requires i < |ps|
    ensures Count(m, ps[i := p]) == Count(m, ps) - Weight(m, ps[i]) + Weight(m, p)
  {
    SumUpdate(Weights(m, ps), i, Weight(m, p));
    assert Weights(m, ps[i := p]) == Weights(m, ps)[i := Weight(m, p)];
  }

  // ---- the invariant ----

  /** Phase and slot of one goroutine agree. */
  ghost predicate Agree(p: Phase, slot: Option<Slot>) {
    match p
    case Unspawned => slot.None?
    case Selecting => slot.None?
    case Running => slot.None?
    case Leaving(holds) => slot.Some? && (slot.value.FromStage? <==> holds)
    case Done => slot.Some?
  }

  ghost predicate Failed(slot: Option<Slot>) {
    slot.Some? && slot.value.FromStage? && slot.value.result.Err?
  }

  /** The error of the first failed stage in writing order. */
  ghost function FirstFailure(written: seq<nat>, slots: seq<Option<Slot>>): Option<string>
    requires forall k :: 0 <= k < |written| ==> written[k] < |slots|
  {
    if written == [] then None
    else
      var n := |written| - 1;
      var earlier := FirstFailure(written[..n], slots);
      if earlier.Some? then earlier
      else if Failed(slots[written[n]]) then Some(slots[written[n]].value.result.error)
      else None
  }

  ghost predicate WriteLog(s: State) {
    && (forall k :: 0 <= k < |s.written| ==> s.written[k] < |s.slots|)
    && (forall j, k :: 0 <= j < k < |s.written| ==> s.written[j] != s.written[k])
    && (forall i :: 0 <= i < |s.slots| ==> (i in s.written <==> s.slots[i].Some?))
  }

  ghost predicate Shape(cfg: Config, s: State) {
    && |s.slots| == |s.phases| && s.spawned <= |s.phases|
    && (forall i :: 0 <= i < |s.phases| ==> (s.phases[i].Unspawned? <==> i >= s.spawned))
    && (forall i :: 0 <= i < |s.phases| ==> Agree(s.phases[i], s.slots[i]))
    && s.tokens == Count(TokensHeld, s.phases) && s.tokens <= Capacity(cfg.maxConcurrency, |s.phases|)
    && WriteLog(s)
  }

  /** Stages are given up only after a cancellation, and a first error cancels. */
  ghost predicate CancelJustified(s: State) {
    && (s.firstErr.Some? ==> s.cancelled)
    && (forall i :: 0 <= i < |s.slots| && s.slots[i] == Some(Cancelled) ==> s.cancelled)
  }

  ghost predicate Inv(cfg: Config, s: State) {
    Shape(cfg, s) && CancelJustified(s) && s.firstErr == if cfg.failFast then FirstFailure(s.written, s.slots) else None
  }

  lemma InitEstablishesInv(cfg: Config, n: nat, s: State)
    requires Init(n, s)
    ensures Inv(cfg, s)
  {
    SumConstant(Weights(TokensHeld, s.phases), 0);
  }

  /** Writing a fresh slot appends to the log and does not disturb earlier failures. */
  lemma {:induction false} FailuresStay(written: seq<nat>, slots: seq<Option<Slot>>, i: nat, slot: Option<Slot>)
    requires forall k :: 0 <= k < |written| ==> written[k] < |slots| && written[k] != i
    requires i < |slots|
    ensures FirstFailure(written, slots[i := slot]) == FirstFailure(written, slots)
  {
    if written != [] {
      FailuresStay(written[..|written| - 1], slots, i, slot);
    }
  }

  lemma WriteKeepsLog(s: State, i: nat, slot: Slot, holds: bool)
    requires |s.slots| == |s.phases| && WriteLog(s) && i < |s.slots| && s.slots[i].None?
    ensures var t := Write(s, i, slot, holds);
            && WriteLog(t)
            && FirstFailure(t.written, t.slots) ==
               var earlier := FirstFailure(s.written, s.slots);
               if earlier.Some? then earlier
               else if Failed(Some(slot)) then Some(slot.result.error) else None
  {
    var t := Write(s, i, slot, holds);
    assert i !in s.written;
    forall k | 0 <= k < |s.written| ensures s.written[k] != i {
      assert s.written[k] in s.written;
    }
    FailuresStay(s.written, s.slots, i, Some(slot));
    assert t.written[..|t.written| - 1] == s.written;
    forall j | 0 <= j < |t.slots| ensures j in t.written <==> t.slots[j].Some? {
      assert j in t.written <==> j in s.written || j == i;
    }
  }

  lemma SpawnKeepsInv(cfg: Config, s: State)
    requires Inv(cfg, s) && Enabled(cfg, s, Spawn)
    ensures Inv(cfg, Step(cfg, s, Spawn))
  {
    CountUpdate(TokensHeld, s.phases, s.spawned, Selecting);
  }

  lemma AcquireKeepsInv(cfg: Config, s: State, i: nat)
    requires Inv(cfg, s) && Enabled(cfg, s, Acquire(i))
    ensures Inv(cfg, Step(cfg, s, Acquire(i)))
  {
    CountUpdate(TokensHeld, s.phases, i, Running);
  }

  lemma WriteKeepsTokens(s: State, i: nat, holds: bool)
    requires i < |s.phases| && s.tokens == Count(TokensHeld, s.phases)
    requires Weight(TokensHeld, s.phases[i]) == if holds then 1 else 0
    ensures s.tokens == Count(TokensHeld, s.phases[i := Leaving(holds)])
  {
    CountUpdate(TokensHeld, s.phases, i, Leaving(holds));
  }

  lemma WriteKeepsShape(cfg: Config, s: State, i: nat, slot: Slot, holds: bool)
    requires Shape(cfg, s) && i < |s.phases| && s.slots[i].None? && i < s.spawned
    requires slot.FromStage? <==> holds
    requires Weight(TokensHeld, s.phases[i]) == if holds then 1 else 0
    ensures Shape(cfg, Write(s, i, slot, holds))
  {
    WriteKeepsTokens(s, i, holds);
    WriteKeepsLog(s, i, slot, holds);
    WriteKeepsPlaces(s, i, slot, holds);
  }

  lemma WriteKeepsPlaces(s: State, i: nat, slot: Slot, holds: bool)
    requires |s.slots| == |s.phases| && i < |s.phases| && i < s.spawned && (slot.FromStage? <==> holds)
    requires forall k :: 0 <= k < |s.phases| ==> (s.phases[k].Unspawned? <==> k >= s.spawned)
    requires forall k :: 0 <= k < |s.phases| ==> Agree(s.phases[k], s.slots[k])
    ensures var t := Write(s, i, slot, holds);
            && (forall k :: 0 <= k < |t.phases| ==> (t.phases[k].Unspawned? <==> k >= t.spawned))
            && (forall k :: 0 <= k < |t.phases| ==> Agree(t.phases[k], t.slots[k]))
  {
  }

  lemma SkipKeepsInv(cfg: Config, s: State, i: nat)
    requires Inv(cfg, s) && Enabled(cfg, s, Skip(i))
    ensures Inv(cfg, Step(cfg, s, Skip(i)))
  {
    WriteKeepsShape(cfg, s, i, Cancelled, false);
    WriteKeepsLog(s, i, Cancelled, false);
  }

  lemma ShapeIgnoresCancel(cfg: Config, s: State, firstErr: Option<string>, cancelled: bool)
    requires Shape(cfg, s)
    ensures Shape(cfg, s.(firstErr := firstErr, cancelled := cancelled))
  {
  }

  lemma ReturnKeepsInv(cfg: Config, s: State, i: nat, result: Result)
    requires Inv(cfg, s) && Enabled(cfg, s, Return(i, result))
    ensures Inv(cfg, Step(cfg, s, Return(i, result)))
  {
    var t, t' := Write(s, i, FromStage(result), true), Step(cfg, s, Return(i, result));
    WriteKeepsShape(cfg, s, i, FromStage(result), true);
    WriteKeepsLog(s, i, FromStage(result), true);
    ShapeIgnoresCancel(cfg, t, t'.firstErr, t'.cancelled);
    assert t' == t.(firstErr := t'.firstErr, cancelled := t'.cancelled);
    assert CancelJustified(t');
  }

  lemma LeaveKeepsInv(cfg: Config, s: State, i: nat)
    requires Inv(cfg, s) && Enabled(cfg, s, Leave(i))
    ensures Inv(cfg, Step(cfg, s, Leave(i)))
  {
    CountUpdate(TokensHeld, s.phases, i, Done);
  }

  lemma NextKeepsInv(cfg: Config, s: State, e: Event)
    requires Inv(cfg, s) && Enabled(cfg, s, e)
    ensures Inv(cfg, Step(cfg, s, e))
  {
    match e
    case Spawn => SpawnKeepsInv(cfg, s);
    case Acquire(i) => AcquireKeepsInv(cfg, s, i);
    case Skip(i) => SkipKeepsInv(cfg, s, i);
    case Return(i, result) => ReturnKeepsInv(cfg, s, i, result);
    case Leave(i) => LeaveKeepsInv(cfg, s, i);
    case CancelParent =>
  }

  // ---- runs ----

  ghost predicate IsRun(cfg: Config, n: nat, es: seq<Event>, ss: seq<State>) {
    && |ss| == |es| + 1 && Init(n, ss[0])
    && forall k :: 0 <= k < |es| ==>
         |ss[k].slots| == |ss[k].phases| && Enabled(cfg, ss[k], es[k]) && ss[k + 1] == Step(cfg, ss[k], es[k])
  }

  lemma {:induction false} InvAlongRun(cfg: Config, n: nat, es: seq<Event>, ss: seq<State>, k: nat)
    requires IsRun(cfg, n, es, ss) && k < |ss|
    ensures Inv(cfg, ss[k]) && |ss[k].phases| == n
  {
    if k == 0 {
      InitEstablishesInv(cfg, n, ss[0]);
    } else {
      InvAlongRun(cfg, n, es, ss, k - 1);
      NextKeepsInv(cfg, ss[k - 1], es[k - 1]);
    }
  }

  /** In every interleaving at most min(MaxConcurrency, n) stages run at once; n when it is unset. */
  lemma ConcurrencyBounded(cfg: Config, n: nat, es: seq<Event>, ss: seq<State>, k: nat)
    requires IsRun(cfg, n, es, ss) && k < |ss|
    ensures Count(StagesRunning, ss[k].phases) <= n
    ensures cfg.maxConcurrency > 0 ==> Count(StagesRunning, ss[k].phases) <= cfg.maxConcurrency
  {
    InvAlongRun(cfg, n, es, ss, k);
    SumScaled(Weights(StagesRunning, ss[k].phases), Weights(TokensHeld, ss[k].phases), 1);
  }

  /** Without an outside cancellation the context ends exactly when a first error is recorded. */
  lemma {:induction false} OnlyFailureCancels(cfg: Config, n: nat, es: seq<Event>, ss: seq<State>, k: nat)
    requires IsRun(cfg, n, es, ss) && k < |ss|
    requires forall i :: 0 <= i < |es| ==> !es[i].CancelParent?
    ensures ss[k].cancelled <==> ss[k].firstErr.Some?
  {
    InvAlongRun(cfg, n, es, ss, k);
    if k > 0 {
      OnlyFailureCancels(cfg, n, es, ss, k - 1);
      assert ss[k] == Step(cfg, ss[k - 1], es[k - 1]);
    }
  }

  /** The launcher has spawned everything and the wait group is at zero. */
  ghost predicate Joined(s: State) {
    s.spawned == |s.phases| && forall i :: 0 <= i < |s.phases| ==> s.phases[i].Done?
  }

  /** No deadlock: until the join some goroutine or the launcher can step, whether or not the
      context is ever cancelled. */
  lemma SomeoneCanStep(cfg: Config, s: State)
    requires Inv(cfg, s) && !Joined(s)
    ensures exists e: Event :: !e.CancelParent? && Enabled(cfg, s, e)
  {
    if s.spawned < |s.phases| {
      assert Enabled(cfg, s, Spawn);
    } else {
      var i :| 0 <= i < |s.phases| && !s.phases[i].Done?;
      if s.tokens > 0 {
        var k := SumPositive(Weights(TokensHeld, s.phases));
        assert Enabled(cfg, s, if s.phases[k].Running? then Return(k, Ok("")) else Leave(k));
      } else if s.phases[i].Selecting? {
        assert Enabled(cfg, s, Acquire(i));
      } else {
        CountUpdate(TokensHeld, s.phases, i, Done);
        SumNonNegative(Weights(TokensHeld, s.phases[i := Done]));
        assert Enabled(cfg, s, Leave(i));
      }
    }
  }

  ghost function Progress(es: seq<Event>): nat {
    if es == [] then 0 else Progress(es[..|es| - 1]) + if es[|es| - 1].CancelParent? then 0 else 1
  }

  /** Each step that is not an outside cancellation takes exactly one unit off the work ahead. */
  lemma StepTakesOne(cfg: Config, s: State, e: Event)
    requires Inv(cfg, s) && Enabled(cfg, s, e)
    ensures Count(StepsAhead, Step(cfg, s, e).phases) + (if e.CancelParent? then 0 else 1) <= Count(StepsAhead, s.phases)
  {
    match e
    case Spawn => CountUpdate(StepsAhead, s.phases, s.spawned, Selecting);
    case Acquire(i) => CountUpdate(StepsAhead, s.phases, i, Running);
    case Skip(i) => CountUpdate(StepsAhead, s.phases, i, Leaving(false));
    case Return(i, _) => CountUpdate(StepsAhead, s.phases, i, Leaving(true));
    case Leave(i) => CountUpdate(StepsAhead, s.phases, i, Done);
    case CancelParent =>
  }

  /** The join is reached: a run has at most 4n steps besides outside cancellations, and by
      `SomeoneCanStep` it can only stop at the join. */
  lemma {:induction false} JoinWithinBound(cfg: Config, n: nat, es: seq<Event>, ss: seq<State>)
    requires IsRun(cfg, n, es, ss)
    ensures Progress(es) + Count(StepsAhead, ss[|es|].phases) <= 4 * n
  {
    if es == [] {
      SumConstant(Weights(StepsAhead, ss[0].phases), 4);
    } else {
      var m := |es| - 1;
      JoinWithinBound(cfg, n, es[..m], ss[..m + 1]);
      InvAlongRun(cfg, n, es, ss, m);
      StepTakesOne(cfg, ss[m], es[m]);
    }
  }

  lemma {:induction false} NoFailureFound(written: seq<nat>, slots: seq<Option<Slot>>)
    requires forall k :: 0 <= k < |written| ==> written[k] < |slots|
    ensures FirstFailure(written, slots).Some? <==> exists k :: 0 <= k < |written| && Failed(slots[written[k]])
  {
    if written != [] {
      var n := |written| - 1;
      NoFailureFound(written[..n], slots);
      assert forall k :: 0 <= k < n ==> written[..n][k] == written[k];
      if FirstFailure(written[..n], slots).Some? {
        var k :| 0 <= k < n && Failed(slots[written[..n][k]]);
        assert Failed(slots[written[k]]);
      }
    }
  }

  // ---- what the slots, the error and the context say about the run ----

  lemma SlotStays(cfg: Config, s: State, e: Event, i: nat)
    requires Inv(cfg, s) && Enabled(cfg, s, e) && i < |s.slots| && s.slots[i].Some?
    ensures i < |Step(cfg, s, e).slots| && Step(cfg, s, e).slots[i] == s.slots[i]
  {
    assert Agree(s.phases[i], s.slots[i]);
  }

  /** What a goroutine leaves in its slot. */
  function LeftBy(e: Event): Option<Slot> {
    match e
    case Return(_, r) => Some(FromStage(r))
    case Skip(_) => Some(Cancelled)
    case _ => None
  }

  predicate Writes(e: Event, i: nat) {
    (e.Return? || e.Skip?) && e.i == i
  }

  /** A slot keeps what was left in it. */
  lemma {:induction false} SlotIsKept(cfg: Config, n: nat, es: seq<Event>, ss: seq<State>, j: nat, k: nat, i: nat)
    requires IsRun(cfg, n, es, ss) && j < k < |ss| && Writes(es[j], i)
    ensures i < n == |ss[k].slots| && ss[k].slots[i] == LeftBy(es[j])
    decreases k
  {
    if j < k - 1 {
      SlotIsKept(cfg, n, es, ss, j, k - 1, i);
      RunSlotStays(cfg, n, es, ss, k - 1, i);
    } else {
      RunWritesSlot(cfg, n, es, ss, j, i);
    }
  }

  lemma RunSlotStays(cfg: Config, n: nat, es: seq<Event>, ss: seq<State>, k: nat, i: nat)
    requires IsRun(cfg, n, es, ss) && k < |es| && i < |ss[k].slots| && ss[k].slots[i].Some?
    ensures |ss[k + 1].slots| == n && i < n && ss[k + 1].slots[i] == ss[k].slots[i]
  {
    InvAlongRun(cfg, n, es, ss, k);
    InvAlongRun(cfg, n, es, ss, k + 1);
    SlotStays(cfg, ss[k], es[k], i);
  }

  lemma RunWritesSlot(cfg: Config, n: nat, es: seq<Event>, ss: seq<State>, k: nat, i: nat)
    requires IsRun(cfg, n, es, ss) && k < |es| && Writes(es[k], i)
    ensures |ss[k + 1].slots| == n && i < n && ss[k + 1].slots[i] == LeftBy(es[k])
  {
    InvAlongRun(cfg, n, es, ss, k + 1);
    WritesSlot(cfg, ss[k], es[k], i);
  }

  lemma WritesSlot(cfg: Config, s: State, e: Event, i: nat)
    requires |s.slots| == |s.phases| && Enabled(cfg, s, e) && Writes(e, i)
    ensures |Step(cfg, s, e).slots| == |s.slots| > i && Step(cfg, s, e).slots[i] == LeftBy(e)
  {
  }

  /** What is in a slot was left there by its own goroutine. */
  lemma {:induction false} SlotIsFromRun(cfg: Config, n: nat, es: seq<Event>, ss: seq<State>, k: nat, i: nat) returns (j: nat)
    requires IsRun(cfg, n, es, ss) && k < |ss| && i < |ss[k].slots| && ss[k].slots[i].Some?
    ensures j < k && Writes(es[j], i) && ss[k].slots[i] == LeftBy(es[j])
  {
    InvAlongRun(cfg, n, es, ss, k - 1);
    assert ss[k] == Step(cfg, ss[k - 1], es[k - 1]);
    if ss[k - 1].slots[i].Some? {
      j := SlotIsFromRun(cfg, n, es, ss, k - 1, i);
      RunSlotStays(cfg, n, es, ss, k - 1, i);
    } else {
      j := k - 1;
    }
  }

  /** At every moment a slot holds a stage's result exactly if that stage has returned it, and the
      context error exactly if its goroutine has given up. */
  lemma SlotsTellTheRun(cfg: Config, n: nat, es: seq<Event>, ss: seq<State>, k: nat, i: nat)
    requires IsRun(cfg, n, es, ss) && k < |ss| && i < n
    ensures i < |ss[k].slots|
    ensures forall r :: ss[k].slots[i] == Some(FromStage(r)) <==> Return(i, r) in es[..k]
    ensures ss[k].slots[i] == Some(Cancelled) <==> Skip(i) in es[..k]
  {
    InvAlongRun(cfg, n, es, ss, k);
    forall e | e in es[..k] && Writes(e, i) ensures ss[k].slots[i] == LeftBy(e) {
      var j :| 0 <= j < k && es[..k][j] == e;
      SlotIsKept(cfg, n, es, ss, j, k, i);
    }
    if ss[k].slots[i].Some? {
      var j := SlotIsFromRun(cfg, n, es, ss, k, i);
      assert es[j] in es[..k];
    }
  }

  predicate Fails(e: Event) { e.Return? && e.result.Err? }

  /** The error of the first failed return. */
  function FirstError(es: seq<Event>): Option<string> {
    if es == [] then None
    else
      var n := |es| - 1;
      var earlier := FirstError(es[..n]);
      if earlier.Some? then earlier else if Fails(es[n]) then Some(es[n].result.error) else None
  }

  /** The error kept is that of the first failed return under fail-fast, and none otherwise. */
  lemma {:induction false} ErrorIsFirst(cfg: Config, n: nat, es: seq<Event>, ss: seq<State>, k: nat)
    requires IsRun(cfg, n, es, ss) && k < |ss|
    ensures ss[k].firstErr == if cfg.failFast then FirstError(es[..k]) else None
  {
    if k > 0 {
      ErrorIsFirst(cfg, n, es, ss, k - 1);
      InvAlongRun(cfg, n, es, ss, k - 1);
      assert ss[k] == Step(cfg, ss[k - 1], es[k - 1]);
      assert es[..k][..k - 1] == es[..k - 1] && es[..k][k - 1] == es[k - 1];
    }
  }

  predicate Cancels(cfg: Config, e: Event) { e.CancelParent? || (cfg.failFast && Fails(e)) }

  /** The stages' context is cancelled exactly if the caller's was or, under fail-fast, a stage failed. */
  lemma {:induction false} CancelledExactlyWhen(cfg: Config, n: nat, es: seq<Event>, ss: seq<State>, k: nat)
    requires IsRun(cfg, n, es, ss) && k < |ss|
    ensures ss[k].cancelled <==> exists j :: 0 <= j < k && Cancels(cfg, es[j])
  {
    if k > 0 {
      CancelledExactlyWhen(cfg, n, es, ss, k - 1);
      InvAlongRun(cfg, n, es, ss, k - 1);
      assert ss[k] == Step(cfg, ss[k - 1], es[k - 1]);
      if j :| 0 <= j < k - 1 && Cancels(cfg, es[j]) { assert ss[k].cancelled; }
      if Cancels(cfg, es[k - 1]) { assert ss[k].cancelled; }
    }
  }

  // ---- the concurrency allowed is reached ----

  /** `m` goroutines launched, the first `a` of them running their stages. */
  ghost function Launched(n: nat, m: nat, a: nat): (s: State)
    requires a <= m <= n
    ensures |s.phases| == |s.slots| == n && s.spawned == m && s.tokens == a && !s.cancelled
    ensures forall i :: 0 <= i < n ==> s.phases[i] == if i < a then Running else if i < m then Selecting else Unspawned
  {
    State(seq(n, i => if 0 <= i < a then Running else if 0 <= i < m then Selecting else Unspawned),
          m, a, false, None, seq(n, _ => None), [])
  }

  ghost predicate Reached(cfg: Config, n: nat, s: State) {
    exists es: seq<Event>, ss: seq<State> :: IsRun(cfg, n, es, ss) && ss[|es|] == s
  }

  lemma ReachedStep(cfg: Config, n: nat, s: State, e: Event)
    requires Reached(cfg, n, s) && |s.slots| == |s.phases| && Enabled(cfg, s, e)
    ensures Reached(cfg, n, Step(cfg, s, e))
  {
    var es: seq<Event>, ss: seq<State> :| IsRun(cfg, n, es, ss) && ss[|es|] == s;
    var es', ss' := es + [e], ss + [Step(cfg, s, e)];
    forall k | 0 <= k < |es'|
      ensures |ss'[k].slots| == |ss'[k].phases| && Enabled(cfg, ss'[k], es'[k]) && ss'[k + 1] == Step(cfg, ss'[k], es'[k])
    {
      if k < |es| { assert ss'[k] == ss[k] && es'[k] == es[k] && ss'[k + 1] == ss[k + 1]; }
    }
    assert IsRun(cfg, n, es', ss') && ss'[|es'|] == Step(cfg, s, e);
  }

  lemma LaunchStep(cfg: Config, n: nat, m: nat)
    requires m < n
    ensures Enabled(cfg, Launched(n, m, 0), Spawn) && Step(cfg, Launched(n, m, 0), Spawn) == Launched(n, m + 1, 0)
  {
    assert Launched(n, m + 1, 0).phases == Launched(n, m, 0).phases[m := Selecting];
  }

  lemma AcquireStep(cfg: Config, n: nat, a: nat)
    requires a < n && a < Capacity(cfg.maxConcurrency, n)
    ensures var s, t := Launched(n, n, a), Launched(n, n, a + 1);
            && Enabled(cfg, s, Acquire(a)) && Step(cfg, s, Acquire(a)) == t
            && Count(StagesRunning, t.phases) == Count(StagesRunning, s.phases) + 1
  {
    var s, t := Launched(n, n, a), Launched(n, n, a + 1);
    assert t.phases == s.phases[a := Running];
    CountUpdate(StagesRunning, s.phases, a, Running);
  }

  lemma {:induction false} LaunchedIsReached(cfg: Config, n: nat, m: nat)
    requires m <= n
    ensures Reached(cfg, n, Launched(n, m, 0))
  {
    if m > 0 {
      LaunchedIsReached(cfg, n, m - 1);
      LaunchStep(cfg, n, m - 1);
      ReachedStep(cfg, n, Launched(n, m - 1, 0), Spawn);
    } else {
      var s := Launched(n, 0, 0);
      var es: seq<Event>, ss := [], [s];
      assert s.phases == seq(n, _ => Unspawned);
      assert IsRun(cfg, n, es, ss) && ss[|es|] == s;
    }
  }

  lemma {:induction false} RunningIsReached(cfg: Config, n: nat, a: nat)
    requires a <= n && a <= Capacity(cfg.maxConcurrency, n)
    ensures Reached(cfg, n, Launched(n, n, a)) && Count(StagesRunning, Launched(n, n, a).phases) == a
  {
    if a > 0 {
      RunningIsReached(cfg, n, a - 1);
      AcquireStep(cfg, n, a - 1);
      ReachedStep(cfg, n, Launched(n, n, a - 1), Acquire(a - 1));
    } else {
      LaunchedIsReached(cfg, n, n);
      SumConstant(Weights(StagesRunning, Launched(n, n, 0).phases), 0);
    }
  }

  /** The bound is not stricter than configured: some run has that many stages running at once, all of
      them when there is no bound or it is no less than their number. */
  lemma ConcurrencyReached(cfg: Config, n: nat) returns (s: State)
    ensures Reached(cfg, n, s)
    ensures Count(StagesRunning, s.phases) == if 0 < cfg.maxConcurrency < n then cfg.maxConcurrency else n
  {
    var c := Capacity(cfg.maxConcurrency, n);
    s := Launched(n, n, c);
    RunningIsReached(cfg, n, c);
  }

  /** What the caller gets: at the join every slot has been written exactly once and holds what its
      stage returned, or the context error if its goroutine gave up. The returned error is that of the
      first stage to fail when FailFast is set, so non-nil exactly when FailFast is set and some
      executed stage failed. */
  lemma JoinResult(cfg: Config, n: nat, es: seq<Event>, ss: seq<State>)
    requires IsRun(cfg, n, es, ss) && Joined(ss[|es|])
    ensures var s := ss[|es|];
            && |s.slots| == n && (forall i :: 0 <= i < n ==> s.slots[i].Some?)
            && (forall i: nat :: i < n ==> multiset(s.written)[i] == 1)
            && (s.firstErr.Some? <==> cfg.failFast && exists i :: 0 <= i < n && Failed(s.slots[i]))
            && WriteLog(s) && (cfg.failFast ==> s.firstErr == FirstFailure(s.written, s.slots))
            && (!s.cancelled ==> forall i :: 0 <= i < n ==> s.slots[i].value.FromStage?)
            && (forall i: nat, r :: i < n ==> (s.slots[i] == Some(FromStage(r)) <==> Return(i, r) in es))
            && (forall i: nat :: i < n ==> (s.slots[i] == Some(Cancelled) <==> Skip(i) in es))
            && s.firstErr == if cfg.failFast then FirstError(es) else None
  {
    var s := ss[|es|];
    InvAlongRun(cfg, n, es, ss, |es|);
    assert es[..|es|] == es;
    ErrorIsFirst(cfg, n, es, ss, |es|);
    SlotsAtJoin(cfg, n, es, ss);
    assert forall i :: 0 <= i < n ==> Agree(s.phases[i], s.slots[i]);
    WrittenOnce(s);
    FailureIsFound(s);
  }

  lemma SlotsAtJoin(cfg: Config, n: nat, es: seq<Event>, ss: seq<State>)
    requires IsRun(cfg, n, es, ss) && |ss[|es|].slots| == n
    ensures forall i: nat, r :: i < n ==> (ss[|es|].slots[i] == Some(FromStage(r)) <==> Return(i, r) in es)
    ensures forall i: nat :: i < n ==> (ss[|es|].slots[i] == Some(Cancelled) <==> Skip(i) in es)
  {
    assert es[..|es|] == es;
    forall i: nat | i < n
      ensures forall r :: ss[|es|].slots[i] == Some(FromStage(r)) <==> Return(i, r) in es
      ensures ss[|es|].slots[i] == Some(Cancelled) <==> Skip(i) in es
    {
      SlotsTellTheRun(cfg, n, es, ss, |es|, i);
    }
  }

  lemma WrittenOnce(s: State)
    requires WriteLog(s) && forall i :: 0 <= i < |s.slots| ==> s.slots[i].Some?
    ensures forall i: nat :: i < |s.slots| ==> multiset(s.written)[i] == 1
  {
    forall i: nat | i < |s.slots| ensures multiset(s.written)[i] == 1 {
      DistinctCount(s.written, i);
    }
  }

  lemma FailureIsFound(s: State)
    requires WriteLog(s)
    ensures FirstFailure(s.written, s.slots).Some? <==> exists i :: 0 <= i < |s.slots| && Failed(s.slots[i])
  {
    NoFailureFound(s.written, s.slots);
    if i :| 0 <= i < |s.slots| && Failed(s.slots[i]) {
      var k :| 0 <= k < |s.written| && s.written[k] == i;
      assert Failed(s.slots[s.written[k]]);
    }
  }

  lemma {:induction false} DistinctCount(log: seq<nat>, x: nat)
    requires forall j, k :: 0 <= j < k < |log| ==> log[j] != log[k]
    ensures multiset(log)[x] == if x in log then 1 else 0
  {
    if log != [] {
      var n := |log| - 1;
      DistinctCount(log[..n], x);
      assert log == log[..n] + [log[n]];
    }
  }

  /** The shared variables of one `FanOut` call; each method is one atomic section of the source. */
  class Call {
    const cfg: Config
    var phases: seq<Phase>
    var spawned: nat
    var sem: nat
    var cancelled: bool
    var firstErr: Option<string>
    var outputs: seq<Option<Slot>>
    ghost var written: seq<nat>

    ghost function Snapshot(): State
      reads this
    {
      State(phases, spawned, sem, cancelled, firstErr, outputs, written)
    }

    ghost predicate Valid()
      reads this
    {
      Inv(cfg, Snapshot())
    }

    constructor (cfg: Config, stages: nat)
      ensures this.cfg == cfg && Init(stages, Snapshot()) && Valid()
    {
      this.cfg := cfg;
      phases, spawned, sem, cancelled, firstErr := seq(stages, _ => Unspawned), 0, 0, false, None;
      outputs, written := seq(stages, _ => None), [];
      new;
      InitEstablishesInv(cfg, stages, Snapshot());
    }

    method LaunchNext()
      requires Valid() && Enabled(cfg, Snapshot(), Spawn)
      modifies this
      ensures Valid() && Snapshot() == Step(cfg, old(Snapshot()), Spawn)
    {
      NextKeepsInv(cfg, Snapshot(), Spawn);
      phases, spawned := phases[spawned := Selecting], spawned + 1;
    }

    method TakeToken(i: nat)
      requires Valid() && Enabled(cfg, Snapshot(), Acquire(i))
      modifies this
      ensures Valid() && Snapshot() == Step(cfg, old(Snapshot()), Acquire(i))
    {
      NextKeepsInv(cfg, Snapshot(), Acquire(i));
      phases, sem := phases[i := Running], sem + 1;
    }

    method GiveUp(i: nat)
      requires Valid() && Enabled(cfg, Snapshot(), Skip(i))
      modifies this
      ensures Valid() && Snapshot() == Step(cfg, old(Snapshot()), Skip(i))
    {
      NextKeepsInv(cfg, Snapshot(), Skip(i));
      outputs := outputs[i := Some(Cancelled)];
      phases, written := phases[i := Leaving(false)], written + [i];
    }

    method StageReturned(i: nat, result: Result)
      requires Valid() && Enabled(cfg, Snapshot(), Return(i, result))
      modifies this
      ensures Valid() && Snapshot() == Step(cfg, old(Snapshot()), Return(i, result))
      ensures outputs == old(outputs)[i := Some(FromStage(result))]
      ensures firstErr == if result.Err? && cfg.failFast && old(firstErr).None? then Some(result.error) else old(firstErr)
    {
      NextKeepsInv(cfg, Snapshot(), Return(i, result));
      Publish(i, result);
    }

    /** The critical section in which a stage's outcome is written. */
    method Publish(i: nat, result: Result)
      requires |outputs| == |phases| && Enabled(cfg, Snapshot(), Return(i, result))
      modifies this
      ensures Snapshot() == Step(cfg, old(Snapshot()), Return(i, result))
      ensures outputs == old(outputs)[i := Some(FromStage(result))]
      ensures firstErr == if result.Err? && cfg.failFast && old(firstErr).None? then Some(result.error) else old(firstErr)
    {
      outputs := outputs[i := Some(FromStage(result))];
      if result.Err? {
        if cfg.failFast && firstErr.None? {
          firstErr := Some(result.error);
          cancelled := true;
        }
      }
      phases, written := phases[i := Leaving(true)], written + [i];
    }

    method Exit(i: nat)
      requires Valid() && Enabled(cfg, Snapshot(), Leave(i))
      modifies this
      ensures Valid() && Snapshot() == Step(cfg, old(Snapshot()), Leave(i))
    {
      NextKeepsInv(cfg, Snapshot(), Leave(i));
      if phases[i].holds { sem := sem - 1; }
      phases := phases[i := Done];
    }

    /** The caller's context ends, by cancellation or timeout. */
    method ContextDone()
      requires Valid()
      modifies this
      ensures Valid() && Snapshot() == Step(cfg, old(Snapshot()), CancelParent)
    {
      cancelled := true;
    }
  }
}

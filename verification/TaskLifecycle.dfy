/** What every step of the task server keeps, and how a task moves over whole runs. */
module TaskLifecycle {
  import opened Prelude
  import opened TaskModel

  // ---- an update keeps the invariant ----

  /** The goroutines after a step that concerns only those of one task. */
  ghost predicate OnlyOf(id: string, before: seq<Worker>, after: seq<Worker>) {
    && |after| == |before|
    && forall w :: 0 <= w < |before| ==>
         after[w].id == before[w].id && (before[w].id == id || after[w] == before[w])
  }

  /** One task changed, and the goroutines with it. */
  ghost function Changed(s: State, id: string, task: Task, workers: seq<Worker>, maker: Maker): State {
    Updated(s, id, task, maker).(workers := workers)
  }

  lemma ChangeKeepsTied(s: State, id: string, task: Task, workers: seq<Worker>, maker: Maker)
    requires Tied(s) && id in s.tasks && OnlyOf(id, s.workers, workers) && task.state.Rank() > 0
    ensures Tied(Changed(s, id, task, workers, maker))
  {
    assert forall w :: 0 <= w < |workers| ==> workers[w].id == s.workers[w].id;
  }

  lemma ChangeKeepsTask(s: State, id: string, task: Task, workers: seq<Worker>, maker: Maker, x: string)
    requires Tied(s) && Tied(Changed(s, id, task, workers, maker)) && x in s.tasks && OnlyOf(id, s.workers, workers)
    requires if x == id
             then !task.state.InputNeeded? && Transcript(task, s.history[x]) &&
                  (task.state.IsTerminal() || exists w :: Busy(workers, w, x))
             else TaskSound(s, x)
    ensures TaskSound(Changed(s, id, task, workers, maker), x)
  {
    if x != id && !s.tasks[x].state.IsTerminal() {
      var w :| Busy(s.workers, w, x);
      assert Busy(workers, w, x);
    }
  }

  lemma ChangeKeepsWorker(s: State, id: string, task: Task, workers: seq<Worker>, maker: Maker, w: nat)
    requires Tied(s) && Tied(Changed(s, id, task, workers, maker)) && OnlyOf(id, s.workers, workers)
    requires w < |workers| && WorkerSound(s, w)
    requires workers[w].id == id ==>
               && (workers[w].at.Searching? ==> IsSentText(s.history[id], workers[w].at.text))
               && (Sole(s, id) ==> Agrees(workers[w].at, task))
    ensures WorkerSound(Changed(s, id, task, workers, maker), w)
  {
    assert forall v :: 0 <= v < |workers| ==> workers[v].id == s.workers[v].id;
  }

  lemma ChangeKeepsLetters(s: State, id: string, task: Task, workers: seq<Worker>, maker: Maker)
    requires Tied(s) && LettersForward(s) && id in s.tasks && Tied(Changed(s, id, task, workers, maker))
    requires Sole(s, id) ==> s.tasks[id].state.Rank() < task.state.Rank()
    ensures LettersForward(Changed(s, id, task, workers, maker))
  {
    var s' := Changed(s, id, task, workers, maker);
    forall l | 0 <= l < |s'.letters| && Sole(s', s'.letters[l].task)
      ensures s'.letters[l].state.Rank() <= s'.tasks[s'.letters[l].task].state.Rank()
    {
      if l < |s.letters| { assert s'.letters[l] == s.letters[l]; }
    }
    forall j, l | 0 <= j < l < |s'.letters| && s'.letters[j].task == s'.letters[l].task && Sole(s', s'.letters[j].task)
      ensures s'.letters[j].state.Rank() < s'.letters[l].state.Rank()
    {
      assert s'.letters[j] == s.letters[j];
      if l < |s.letters| { assert s'.letters[l] == s.letters[l]; }
    }
  }

  lemma ChangeKeepsNotices(s: State, id: string, task: Task, workers: seq<Worker>, maker: Maker)
    requires NoticesExact(s)
    ensures NoticesExact(Changed(s, id, task, workers, maker))
  {
    var s' := Changed(s, id, task, workers, maker);
    assert forall l :: 0 <= l < |s.letters| ==> s'.letters[l] == s.letters[l];
  }

  /** A change by the goroutine of a calm task comes after everything it had to report. */
  ghost predicate InTurn(s: State, id: string, maker: Maker) {
    Calm(s, id) && maker.Goroutine? ==>
      && maker.w < |s.workers| && s.workers[maker.w].id == id
      && forall l :: 0 <= l < |s.letters| && s.letters[l].task == id ==> !s.letters[l].progress.Unsent?
  }

  lemma ChangeKeepsOrder(s: State, id: string, task: Task, workers: seq<Worker>, maker: Maker)
    requires NoticesExact(s) && CalmInOrder(s) && InTurn(s, id, maker) && OnlyOf(id, s.workers, workers)
    ensures CalmInOrder(Changed(s, id, task, workers, maker))
  {
    var s' := Changed(s, id, task, workers, maker);
    assert forall x :: Calm(s', x) ==> Calm(s, x) && (x == id ==> maker.Goroutine?);
    assert forall l :: 0 <= l < |s.letters| ==> s'.letters[l] == s.letters[l];
    forall l: nat | l < |s'.letters| && Calm(s', s'.letters[l].task) ensures MadeByWorker(s', l) {
      if l < |s.letters| { assert MadeByWorker(s, l); }
    }
  }

  /** A change of one task, with messages and goroutines that belong to its new state, keeps the
      invariant. */
  lemma ChangeKeepsInv(s: State, id: string, task: Task, workers: seq<Worker>, maker: Maker)
    requires Inv(s) && id in s.tasks && !task.state.InputNeeded? && task.state.Rank() > 0
    requires Sole(s, id) ==> s.tasks[id].state.Rank() < task.state.Rank()
    requires Transcript(task, s.history[id])
    requires task.state.IsTerminal() || exists w :: Busy(workers, w, id)
    requires OnlyOf(id, s.workers, workers) && InTurn(s, id, maker)
    requires forall w :: 0 <= w < |workers| && workers[w].id == id ==>
               && (workers[w].at.Searching? ==> IsSentText(s.history[id], workers[w].at.text))
               && (Sole(s, id) ==> Agrees(workers[w].at, task))
    ensures Inv(Changed(s, id, task, workers, maker))
  {
    ChangeKeepsTied(s, id, task, workers, maker);
    ChangeKeepsSound(s, id, task, workers, maker);
    ChangeKeepsLetters(s, id, task, workers, maker);
    ChangeKeepsNotices(s, id, task, workers, maker);
    ChangeKeepsOrder(s, id, task, workers, maker);
  }

  lemma ChangeKeepsSound(s: State, id: string, task: Task, workers: seq<Worker>, maker: Maker)
    requires Tied(s) && TasksSound(s) && Tied(Changed(s, id, task, workers, maker)) && id in s.tasks
    requires !task.state.InputNeeded? && Transcript(task, s.history[id])
    requires task.state.IsTerminal() || exists w :: Busy(workers, w, id)
    requires OnlyOf(id, s.workers, workers)
    requires forall w :: 0 <= w < |workers| && workers[w].id == id ==>
               && (workers[w].at.Searching? ==> IsSentText(s.history[id], workers[w].at.text))
               && (Sole(s, id) ==> Agrees(workers[w].at, task))
    ensures TasksSound(Changed(s, id, task, workers, maker))
  {
    var s' := Changed(s, id, task, workers, maker);
    forall x | x in s'.tasks ensures TaskSound(s', x) { ChangeKeepsTask(s, id, task, workers, maker, x); }
    forall w | 0 <= w < |workers| ensures WorkerSound(s', w) { ChangeKeepsWorker(s, id, task, workers, maker, w); }
  }

  // ---- every step keeps the invariant ----

  /** No task is ever left waiting for input. */
  lemma NeverInputNeeded(s: State, w: nat)
    requires Inv(s) && w < |s.workers|
    ensures s.workers[w].id in s.tasks && !s.tasks[s.workers[w].id].state.InputNeeded?
  {
    assert TaskSound(s, s.workers[w].id);
  }

  /** A goroutine that finds its task terminal ends. */
  lemma EndKeepsInv(s: State, w: nat)
    requires Inv(s) && w < |s.workers| && s.tasks[s.workers[w].id].state.IsTerminal()
    ensures Inv(s.(workers := Moved(s.workers, w, Ended)))
  {
    var s' := s.(workers := Moved(s.workers, w, Ended));
    assert forall v :: 0 <= v < |s.workers| ==> s'.workers[v].id == s.workers[v].id;
    EndKeepsSound(s, w);
    forall l: nat | l < |s'.letters| && Calm(s', s'.letters[l].task) ensures MadeByWorker(s', l) {
      assert MadeByWorker(s, l);
    }
  }

  lemma EndKeepsSound(s: State, w: nat)
    requires Tied(s) && TasksSound(s) && w < |s.workers| && s.tasks[s.workers[w].id].state.IsTerminal()
    ensures var s' := s.(workers := Moved(s.workers, w, Ended)); Tied(s') && TasksSound(s')
  {
    var id, s' := s.workers[w].id, s.(workers := Moved(s.workers, w, Ended));
    assert forall v :: 0 <= v < |s.workers| ==> s'.workers[v].id == s.workers[v].id;
    forall x | x in s'.tasks ensures TaskSound(s', x) {
      assert TaskSound(s, x);
      if !s.tasks[x].state.IsTerminal() {
        var v :| Busy(s.workers, v, x);
        assert Busy(s'.workers, v, x);
      }
    }
    forall v | 0 <= v < |s'.workers| ensures WorkerSound(s', v) { assert WorkerSound(s, v); }
  }

  /** The other goroutines of a task keep their places when it becomes `task`. */
  lemma OthersAgree(s: State, w: nat, d: Dispatch, task: Task)
    requires Tied(s) && TasksSound(s) && w < |s.workers| && Agrees(d, task)
    requires d.Searching? ==> IsSentText(s.history[s.workers[w].id], d.text)
    ensures var id, workers := s.workers[w].id, Moved(s.workers, w, d);
            && OnlyOf(id, s.workers, workers)
            && forall v :: 0 <= v < |workers| && workers[v].id == id ==>
                 && (workers[v].at.Searching? ==> IsSentText(s.history[id], workers[v].at.text))
                 && (Sole(s, id) ==> Agrees(workers[v].at, task))
  {
    var id, workers := s.workers[w].id, Moved(s.workers, w, d);
    assert WorkerSound(s, w);
    forall v | 0 <= v < |workers| && workers[v].id == id
      ensures workers[v].at.Searching? ==> IsSentText(s.history[id], workers[v].at.text)
      ensures Sole(s, id) ==> Agrees(workers[v].at, task)
    {
      assert WorkerSound(s, v);
    }
  }

  /** A pending goroutine of a task sent once has nothing reported behind it. */
  lemma PendingInTurn(s: State, w: nat)
    requires Inv(s) && w < |s.workers| && s.workers[w].at.Pending? && !s.tasks[s.workers[w].id].state.IsTerminal()
    ensures InTurn(s, s.workers[w].id, Goroutine(w))
    ensures Sole(s, s.workers[w].id) ==> s.tasks[s.workers[w].id].state.Submitted?
  {
    assert WorkerSound(s, w);
  }

  lemma BeginIsChange(s: State, w: nat)
    requires Enabled(s, Begin(w)) && s.workers[w].id in s.tasks
    ensures var id := s.workers[w].id;
            Step(s, Begin(w)) ==
            if s.tasks[id].state.IsTerminal() then s.(workers := Moved(s.workers, w, Ended))
            else Changed(s, id, s.tasks[id].(state := Working),
                         Moved(s.workers, w, Searching(TaskText(s.tasks[id].messages))), Goroutine(w))
  {
  }

  lemma BegunTranscript(s: State, w: nat)
    requires Inv(s) && w < |s.workers| && !s.tasks[s.workers[w].id].state.IsTerminal()
    ensures var id := s.workers[w].id;
            && Transcript(s.tasks[id].(state := Working), s.history[id])
            && IsSentText(s.history[id], TaskText(s.tasks[id].messages))
  {
    var id := s.workers[w].id;
    assert TaskSound(s, id);
    var sends := s.history[id];
    assert s.tasks[id].messages == sends[|sends| - 1];
  }

  lemma BeginKeepsInv(s: State, w: nat)
    requires Inv(s) && Enabled(s, Begin(w))
    ensures Inv(Step(s, Begin(w)))
  {
    var id := s.workers[w].id;
    var task := s.tasks[id];
    BeginIsChange(s, w);
    if task.state.IsTerminal() {
      EndKeepsInv(s, w);
    } else {
      var workers := Moved(s.workers, w, Searching(TaskText(task.messages)));
      assert Busy(workers, w, id);
      BegunTranscript(s, w);
      OthersAgree(s, w, Searching(TaskText(task.messages)), task.(state := Working));
      PendingInTurn(s, w);
      ChangeKeepsInv(s, id, task.(state := Working), workers, Goroutine(w));
    }
  }

  lemma ConcludedTranscript(s: State, w: nat, tool: Option<string>)
    requires Inv(s) && Enabled(s, Conclude(w, tool))
    requires !s.tasks[s.workers[w].id].state.IsTerminal()
    ensures var id := s.workers[w].id;
            var task := Concluding(tool, s.workers[w].at.text)(s.tasks[id]).value;
            Transcript(task, s.history[id]) && task.state.IsTerminal()
  {
    var id, text := s.workers[w].id, s.workers[w].at.text;
    assert TaskSound(s, id) && WorkerSound(s, w);
    var sends, task := s.history[id], Concluding(tool, text)(s.tasks[id]).value;
    if tool.Some? {
      assert Answers(task.messages, sends[|sends| - 1], tool.value, text);
    }
  }

  /** The only goroutine of a calm task has reported everything when it is free. */
  lemma FreeInTurn(s: State, w: nat)
    requires Inv(s) && w < |s.workers| && Free(s, Goroutine(w))
    ensures InTurn(s, s.workers[w].id, Goroutine(w))
  {
    var id := s.workers[w].id;
    if Calm(s, id) {
      forall l: nat | l < |s.letters| && s.letters[l].task == id ensures !s.letters[l].progress.Unsent? {
        assert MadeByWorker(s, l) && WorkerSound(s, w);
        assert s.letters[l].maker == Goroutine(w);
      }
    }
  }

  lemma ConcludeIsChange(s: State, w: nat, tool: Option<string>)
    requires Enabled(s, Conclude(w, tool)) && s.workers[w].id in s.tasks
    ensures var id := s.workers[w].id;
            Step(s, Conclude(w, tool)) ==
            if s.tasks[id].state.IsTerminal() then s.(workers := Moved(s.workers, w, Ended))
            else Changed(s, id, Concluding(tool, s.workers[w].at.text)(s.tasks[id]).value, Moved(s.workers, w, Ended), Goroutine(w))
  {
  }

  lemma ConcludeKeepsInv(s: State, w: nat, tool: Option<string>)
    requires Inv(s) && Enabled(s, Conclude(w, tool))
    ensures Inv(Step(s, Conclude(w, tool)))
  {
    var id := s.workers[w].id;
    ConcludeIsChange(s, w, tool);
    if s.tasks[id].state.IsTerminal() {
      EndKeepsInv(s, w);
    } else {
      NeverInputNeeded(s, w);
      var task := Concluding(tool, s.workers[w].at.text)(s.tasks[id]).value;
      var workers := Moved(s.workers, w, Ended);
      ConcludedTranscript(s, w, tool);
      OthersAgree(s, w, Ended, task);
      FreeInTurn(s, w);
      ChangeKeepsInv(s, id, task, workers, Goroutine(w));
    }
  }

  lemma CancelKeepsInv(s: State, id: string)
    requires Inv(s)
    ensures Inv(Step(s, Cancel(id)))
  {
    if id in s.tasks && !s.tasks[id].state.IsTerminal() {
      var task := s.tasks[id].(state := Canceled);
      assert TaskSound(s, id);
      forall v | 0 <= v < |s.workers| && s.workers[v].id == id
        ensures s.workers[v].at.Searching? ==> IsSentText(s.history[id], s.workers[v].at.text)
        ensures Sole(s, id) ==> Agrees(s.workers[v].at, task)
      {
        assert WorkerSound(s, v);
      }
      ChangeKeepsInv(s, id, task, s.workers, Handler);
    }
  }

  lemma SendKeepsTied(s: State, e: Event)
    requires Tied(s) && e.Send?
    ensures Tied(Step(s, e))
  {
  }

  lemma SendKeepsTasks(s: State, e: Event, x: string)
    requires Tied(s) && e.Send? && Tied(Step(s, e)) && x in Step(s, e).tasks && (x != e.id ==> TaskSound(s, x))
    ensures TaskSound(Step(s, e), x)
  {
    var s' := Step(s, e);
    assert forall w :: 0 <= w < |s.workers| ==> s'.workers[w] == s.workers[w];
    if x == e.id {
      assert Busy(s'.workers, |s.workers|, x);
    } else if !s.tasks[x].state.IsTerminal() {
      var w :| Busy(s.workers, w, x);
      assert Busy(s'.workers, w, x);
    }
  }

  lemma SendKeepsWorkers(s: State, e: Event, w: nat)
    requires Tied(s) && e.Send? && Tied(Step(s, e)) && w < |Step(s, e).workers| && (w < |s.workers| ==> WorkerSound(s, w))
    ensures WorkerSound(Step(s, e), w)
  {
    var s' := Step(s, e);
    assert forall v :: 0 <= v < |s.workers| ==> s'.workers[v] == s.workers[v];
    if w < |s.workers| && s.workers[w].at.Searching? {
      var sends, text := s.history[s.workers[w].id], s.workers[w].at.text;
      var k :| 0 <= k < |sends| && text == TaskText(sends[k]);
      assert s'.history[s.workers[w].id][k] == sends[k];
    }
  }

  lemma SendKeepsLetters(s: State, e: Event)
    requires Tied(s) && LettersForward(s) && e.Send? && Tied(Step(s, e))
    ensures LettersForward(Step(s, e))
  {
    var s' := Step(s, e);
    assert forall id :: id in s.tasks && Sole(s', id) ==> Sole(s, id) && s'.tasks[id] == s.tasks[id];
  }

  lemma SendKeepsOrder(s: State, e: Event)
    requires Tied(s) && NoticesExact(s) && CalmInOrder(s) && e.Send?
    ensures NoticesExact(Step(s, e)) && CalmInOrder(Step(s, e))
  {
    var s' := Step(s, e);
    assert forall id :: id in s.tasks && Calm(s', id) ==> Calm(s, id);
    forall l: nat | l < |s'.letters| && Calm(s', s'.letters[l].task) ensures MadeByWorker(s', l) {
      assert MadeByWorker(s, l);
    }
  }

  lemma SendKeepsInv(s: State, e: Event)
    requires Inv(s) && e.Send?
    ensures Inv(Step(s, e))
  {
    var s' := Step(s, e);
    SendKeepsTied(s, e);
    SendKeepsLetters(s, e);
    SendKeepsOrder(s, e);
    forall x | x in s'.tasks ensures TaskSound(s', x) { SendKeepsTasks(s, e, x); }
    forall w | 0 <= w < |s'.workers| ensures WorkerSound(s', w) { SendKeepsWorkers(s, e, w); }
  }

  /** Tasks and goroutines are as sound as before when only letters and configurations change. */
  lemma QuietKeepsSound(s: State, s': State)
    requires Tied(s) && TasksSound(s) && s'.tasks == s.tasks && s'.workers == s.workers && s'.history == s.history
    requires |s'.letters| == |s.letters|
    requires forall l :: 0 <= l < |s.letters| ==>
               s'.letters[l].task == s.letters[l].task && s'.letters[l].state == s.letters[l].state
    ensures Tied(s') && TasksSound(s')
  {
    forall x | x in s'.tasks ensures TaskSound(s', x) { assert TaskSound(s, x); }
    forall w | 0 <= w < |s'.workers| ensures WorkerSound(s', w) { assert WorkerSound(s, w); }
  }

  lemma MarkKeepsLetters(s: State, s': State)
    requires Tied(s) && Tied(s') && LettersForward(s)
    requires s'.tasks == s.tasks && s'.history == s.history && |s'.letters| == |s.letters|
    requires forall l :: 0 <= l < |s.letters| ==>
               s'.letters[l].task == s.letters[l].task && s'.letters[l].state == s.letters[l].state
    ensures LettersForward(s')
  {
    assert forall id :: Sole(s', id) <==> Sole(s, id);
  }

  lemma NotifyKeepsNotices(s: State, l: nat)
    requires NoticesExact(s) && Enabled(s, Notify(l))
    ensures NoticesExact(Step(s, Notify(l)))
  {
    var s' := Step(s, Notify(l));
    assert forall k :: 0 <= k < |s.notices| ==> s'.notices[k] == s.notices[k];
  }

  lemma NotifyKeepsOrder(s: State, l: nat)
    requires NoticesExact(s) && CalmInOrder(s) && Enabled(s, Notify(l))
    ensures CalmInOrder(Step(s, Notify(l)))
  {
    var s' := Step(s, Notify(l));
    assert forall id :: Calm(s', id) <==> Calm(s, id);
    assert forall k :: 0 <= k < |s.notices| ==> s'.notices[k] == s.notices[k];
    forall i: nat | i < |s'.letters| && Calm(s', s'.letters[i].task) ensures MadeByWorker(s', i) {
      assert MadeByWorker(s, i);
    }
  }

  lemma NotifyKeepsInv(s: State, l: nat)
    requires Inv(s) && Enabled(s, Notify(l))
    ensures Inv(Step(s, Notify(l)))
  {
    var s' := Step(s, Notify(l));
    QuietKeepsSound(s, s');
    MarkKeepsLetters(s, s');
    NotifyKeepsNotices(s, l);
    NotifyKeepsOrder(s, l);
  }

  lemma ClearKeepsOrder(s: State, l: nat)
    requires NoticesExact(s) && CalmInOrder(s) && Enabled(s, ClearConfigs(l))
    ensures NoticesExact(Step(s, ClearConfigs(l))) && CalmInOrder(Step(s, ClearConfigs(l)))
  {
    var s' := Step(s, ClearConfigs(l));
    assert forall id :: Calm(s', id) <==> Calm(s, id);
    forall i: nat | i < |s'.letters| && Calm(s', s'.letters[i].task) ensures MadeByWorker(s', i) {
      assert MadeByWorker(s, i);
    }
  }

  lemma ClearKeepsInv(s: State, l: nat)
    requires Inv(s) && Enabled(s, ClearConfigs(l))
    ensures Inv(Step(s, ClearConfigs(l)))
  {
    var s' := Step(s, ClearConfigs(l));
    QuietKeepsSound(s, s');
    MarkKeepsLetters(s, s');
    ClearKeepsOrder(s, l);
  }

  lemma ConfigsKeepInv(s: State, push: map<string, map<string, string>>)
    requires Inv(s)
    ensures Inv(s.(push := push))
  {
    var s' := s.(push := push);
    QuietKeepsSound(s, s');
    MarkKeepsLetters(s, s');
    ConfigsKeepOrder(s, push);
  }

  lemma ConfigsKeepOrder(s: State, push: map<string, map<string, string>>)
    requires NoticesExact(s) && CalmInOrder(s)
    ensures NoticesExact(s.(push := push)) && CalmInOrder(s.(push := push))
  {
    var s' := s.(push := push);
    assert forall id :: Calm(s', id) <==> Calm(s, id);
    forall i: nat | i < |s'.letters| && Calm(s', s'.letters[i].task) ensures MadeByWorker(s', i) {
      assert MadeByWorker(s, i);
    }
  }

  lemma StepKeepsInv(s: State, e: Event)
    requires Inv(s) && Enabled(s, e)
    ensures Inv(Step(s, e))
  {
    match e
    case Send(_, _, _) => SendKeepsInv(s, e);
    case Cancel(id) => CancelKeepsInv(s, id);
    case Begin(w) => BeginKeepsInv(s, w);
    case Conclude(w, tool) => ConcludeKeepsInv(s, w, tool);
    case Notify(l) => NotifyKeepsInv(s, l);
    case ClearConfigs(l) => ClearKeepsInv(s, l);
    case _ => ConfigsKeepInv(s, Step(s, e).push);
  }

  // ---- moving forward ----

  ghost predicate Resends(e: Event, id: string) {
    e.Send? && e.id == id
  }

  /** The task is not moved backwards, not touched once terminal, and only gains messages. */
  ghost predicate Advances(s: State, s': State, id: string)
  {
    id in s.tasks ==>
      && id in s'.tasks
      && s.tasks[id].messages <= s'.tasks[id].messages
      && s.tasks[id].state.Rank() <= s'.tasks[id].state.Rank()
      && (s.tasks[id].state.Rank() == s'.tasks[id].state.Rank() ==> s'.tasks[id] == s.tasks[id])
  }

  lemma AttemptAdvances(s: State, id: string, mutate: Task -> Option<Task>, maker: Maker, x: string)
    requires id in s.tasks && mutate(s.tasks[id]).Some? ==>
               var task := mutate(s.tasks[id]).value;
               && s.tasks[id].messages <= task.messages
               && (s.tasks[id].state.Rank() < task.state.Rank() || task == s.tasks[id])
    ensures Advances(s, Attempted(s, id, mutate, maker), x)
  {
  }

  lemma StepAdvances(s: State, e: Event, x: string)
    requires Enabled(s, e) && !Resends(e, x)
    requires e.Begin? ==> s.workers[e.w].id in s.tasks && !s.tasks[s.workers[e.w].id].state.InputNeeded?
    ensures Advances(s, Step(s, e), x)
  {
    match e
    case Cancel(id) => AttemptAdvances(s, id, Cancelling(), Handler, x);
    case Begin(w) => AttemptAdvances(s, s.workers[w].id, Starting(), Goroutine(w), x);
    case Conclude(w, tool) =>
      AttemptAdvances(s, s.workers[w].id, Concluding(tool, s.workers[w].at.text), Goroutine(w), x);
    case _ =>
  }

  lemma AttemptLeavesTerminal(s: State, id: string, mutate: Task -> Option<Task>, maker: Maker, x: string)
    requires x in s.tasks && (x == id ==> mutate(s.tasks[x]).None?)
    ensures var s' := Attempted(s, id, mutate, maker); x in s'.tasks && s'.tasks[x] == s.tasks[x]
  {
  }

  /** A terminal task is left alone by every step except, always, sending its identifier again. */
  lemma TerminalExactlyUntilResent(s: State, e: Event, id: string)
    requires Enabled(s, e) && id in s.tasks && s.tasks[id].state.IsTerminal()
    ensures var s' := Step(s, e);
            && id in s'.tasks
            && (s'.tasks[id] == s.tasks[id] <==> !Resends(e, id))
            && (s'.tasks[id].state.IsTerminal() <==> !Resends(e, id))
  {
    match e
    case Cancel(x) => AttemptLeavesTerminal(s, x, Cancelling(), Handler, id);
    case Begin(w) => AttemptLeavesTerminal(s, s.workers[w].id, Starting(), Goroutine(w), id);
    case Conclude(w, tool) =>
      AttemptLeavesTerminal(s, s.workers[w].id, Concluding(tool, s.workers[w].at.text), Goroutine(w), id);
    case _ =>
  }

  // ---- runs ----

  ghost predicate IsRun(es: seq<Event>, ss: seq<State>) {
    && |ss| == |es| + 1 && Init(ss[0])
    && forall k :: 0 <= k < |es| ==> Enabled(ss[k], es[k]) && ss[k + 1] == Step(ss[k], es[k])
  }

  lemma {:induction false} InvAlongRun(es: seq<Event>, ss: seq<State>, k: nat)
    requires IsRun(es, ss) && k < |ss|
    ensures Inv(ss[k])
  {
    if k > 0 {
      InvAlongRun(es, ss, k - 1);
      StepKeepsInv(ss[k - 1], es[k - 1]);
    }
  }

  lemma RunNeverInputNeeded(es: seq<Event>, ss: seq<State>, k: nat, w: nat)
    requires IsRun(es, ss) && k < |ss| && w < |ss[k].workers|
    ensures ss[k].workers[w].id in ss[k].tasks && !ss[k].tasks[ss[k].workers[w].id].state.InputNeeded?
  {
    InvAlongRun(es, ss, k);
    NeverInputNeeded(ss[k], w);
  }

  lemma RunAdvances(es: seq<Event>, ss: seq<State>, k: nat, id: string)
    requires IsRun(es, ss) && k < |es| && !Resends(es[k], id)
    ensures Advances(ss[k], ss[k + 1], id)
  {
    if es[k].Begin? { RunNeverInputNeeded(es, ss, k, es[k].w); }
    StepAdvances(ss[k], es[k], id);
  }

  lemma AdvancesTransitive(s: State, t: State, u: State, id: string)
    requires Advances(s, t, id) && Advances(t, u, id)
    ensures Advances(s, u, id)
  {
  }

  /** Lifecycle: as long as its identifier is not sent again, a task only moves forward from
      submitted through working to one terminal state, however the handlers and goroutines
      interleave; a terminal task is never changed and messages are only appended. */
  lemma {:induction false} Lifecycle(es: seq<Event>, ss: seq<State>, j: nat, k: nat, id: string)
    requires IsRun(es, ss) && j <= k < |ss|
    requires forall i :: j <= i < k ==> !Resends(es[i], id)
    ensures Advances(ss[j], ss[k], id)
    ensures id in ss[j].tasks && ss[j].tasks[id].state.IsTerminal() ==> id in ss[k].tasks && ss[k].tasks[id] == ss[j].tasks[id]
    decreases k - j
  {
    if j < k {
      Lifecycle(es, ss, j, k - 1, id);
      RunAdvances(es, ss, k - 1, id);
      AdvancesTransitive(ss[j], ss[k - 1], ss[k], id);
    }
  }

  lemma SoundAlongRun(es: seq<Event>, ss: seq<State>, k: nat, id: string)
    requires IsRun(es, ss) && k < |ss| && id in ss[k].tasks
    ensures Tied(ss[k]) && TaskSound(ss[k], id)
  {
    InvAlongRun(es, ss, k);
  }

  lemma TranscriptLength(t: Task, sends: seq<seq<Message>>)
    requires sends != [] && Transcript(t, sends)
    ensures |t.messages| == |sends[|sends| - 1]| + 1 <==> t.state.Completed? || t.state.Failed?
  {
    if t.state.Completed? {
      var tool, text :| IsSentText(sends, text) && Answers(t.messages, sends[|sends| - 1], tool, text);
    }
  }

  /** At every moment the transcript is what was last sent, plus exactly one agent message when the
      task completed or failed; and a task whose goroutines have all returned is terminal. */
  lemma TranscriptExact(es: seq<Event>, ss: seq<State>, k: nat, id: string)
    requires IsRun(es, ss) && k < |ss| && id in ss[k].tasks
    ensures id in ss[k].history && ss[k].history[id] != []
    ensures Transcript(ss[k].tasks[id], ss[k].history[id])
    ensures var sends := ss[k].history[id];
            |ss[k].tasks[id].messages| == |sends[|sends| - 1]| + 1 <==>
            ss[k].tasks[id].state.Completed? || ss[k].tasks[id].state.Failed?
    ensures ss[k].tasks[id].state.IsTerminal() || exists w :: Busy(ss[k].workers, w, id)
  {
    SoundAlongRun(es, ss, k, id);
    TranscriptLength(ss[k].tasks[id], ss[k].history[id]);
  }
}

/** The `Server` object of `a2a/server.go`. Each method is one critical section or notify call of the
    source, proved to be the corresponding step. */
module TaskServer {
  import opened Prelude
  import opened TaskModel
  import opened TaskLifecycle

  /** `Server`: the maps it guards, and the steps its handlers and goroutines take on them. */
  class Server {
    var tasks: map<string, Task>
    var pushConfigs: map<string, map<string, string>>
    var workers: seq<Worker>
    var letters: seq<Letter>
    ghost var notices: seq<nat>
    ghost var history: map<string, seq<seq<Message>>>
    ghost var canceled: set<string>

    ghost function Snapshot(): State
      reads this
    {
      State(tasks, pushConfigs, workers, letters, notices, history, canceled)
    }

    ghost predicate Valid()
      reads this
    {
      Inv(Snapshot())
    }

    constructor ()
      ensures Init(Snapshot()) && Valid()
    {
      tasks, pushConfigs, workers, letters := map[], map[], [], [];
      notices, history, canceled := [], map[], {};
    }

    /** The critical section of `updateTask`. `mutate` answers None to leave its argument alone. */
    method UpdateTask(id: string, mutate: Task -> Option<Task>, maker: Maker) returns (snapshot: Option<Task>)
      modifies this`tasks, this`letters, this`canceled
      ensures Snapshot() == Attempted(old(Snapshot()), id, mutate, maker)
      ensures snapshot == if id in tasks then Some(tasks[id]) else None
    {
      if id !in tasks { return None; }
      var change := mutate(tasks[id]);
      if change.Some? {
        tasks := tasks[id := change.value];
        var configs := if id in pushConfigs then pushConfigs[id] else map[];
        if configs != map[] {
          letters := letters + [Letter(id, change.value.state, configs, maker, Unsent)];
        }
        canceled := if maker.Handler? then canceled + {id} else canceled;
      }
      return Some(tasks[id]);
    }

    /** `notifyTaskUpdate`, made by the maker of an update after unlocking. */
    method NotifyTaskUpdate(l: nat)
      requires Valid() && Enabled(Snapshot(), Notify(l))
      modifies this
      ensures Valid() && Snapshot() == Step(old(Snapshot()), Notify(l))
    {
      letters := Marked(letters, l, Sent);
      notices := notices + [l];
      assert Valid() by { StepKeepsInv(old(Snapshot()), Notify(l)); }
    }

    /** The last critical section of `notifyTaskUpdate`, for a terminal state. */
    method ClearPushConfigs(l: nat)
      requires Valid() && Enabled(Snapshot(), ClearConfigs(l))
      modifies this
      ensures Valid() && Snapshot() == Step(old(Snapshot()), ClearConfigs(l))
    {
      StepKeepsInv(Snapshot(), ClearConfigs(l));
      pushConfigs := pushConfigs - {letters[l].task};
      letters := Marked(letters, l, Cleared);
    }

    method HandleSend(id: string, messages: seq<Message>, config: Option<(string, string)>)
      requires Valid()
      modifies this
      ensures Valid() && Snapshot() == Step(old(Snapshot()), Send(id, messages, config))
    {
      tasks := tasks[id := Task(Submitted, messages)];
      if config.Some? {
        pushConfigs := Stored(pushConfigs, id, config.value);
      }
      workers := workers + [Worker(id, Pending)];
      history := history[id := SendsOf(history, id) + [messages]];
      assert Valid() by { StepKeepsInv(old(Snapshot()), Send(id, messages, config)); }
    }

    method HandleCancel(id: string) returns (snapshot: Option<Task>)
      requires Valid()
      modifies this
      ensures Valid() && Snapshot() == Step(old(Snapshot()), Cancel(id))
      ensures snapshot == if id in tasks then Some(tasks[id]) else None
    {
      StepKeepsInv(Snapshot(), Cancel(id));
      snapshot := UpdateTask(id, Cancelling(), Handler);
    }

    /** The first update of `dispatchTask` and the collection of its text. */
    method DispatchBegin(w: nat)
      requires Valid() && Enabled(Snapshot(), Begin(w))
      modifies this
      ensures Valid() && Snapshot() == Step(old(Snapshot()), Begin(w))
    {
      StepKeepsInv(Snapshot(), Begin(w));
      StartWork(w);
    }

    method StartWork(w: nat)
      requires Enabled(Snapshot(), Begin(w))
      modifies this
      ensures Snapshot() == Step(old(Snapshot()), Begin(w))
    {
      var snapshot := UpdateTask(workers[w].id, Starting(), Goroutine(w));
      if snapshot.None? || snapshot.value.state.IsTerminal() {
        workers := Moved(workers, w, Ended);
        return;
      }
      var text := CollectText(snapshot.value.messages);
      workers := Moved(workers, w, Searching(text));
    }

    method CollectText(messages: seq<Message>) returns (text: string)
      ensures text == TaskText(messages)
    {
      text := "";
      for i := 0 to |messages|
        invariant text == TaskText(messages[..i])
      {
        assert messages[..i + 1][..i] == messages[..i];
        if messages[i].role == "user" {
          var parts := messages[i].parts;
          var before := text;
          for k := 0 to |parts|
            invariant text == before + PartsText(parts[..k])
          {
            assert parts[..k + 1][..k] == parts[..k];
            if parts[k].kind == "text" { text := text + (parts[k].text + " "); }
          }
          assert parts[..|parts|] == parts;
        }
      }
      assert messages[..|messages|] == messages;
    }

    /** The last update of `dispatchTask`, once the tool search has its answer. */
    method DispatchConclude(w: nat, tool: Option<string>)
      requires Valid() && Enabled(Snapshot(), Conclude(w, tool))
      modifies this
      ensures Valid() && Snapshot() == Step(old(Snapshot()), Conclude(w, tool))
      ensures var id := old(workers)[w].id;
              id in old(tasks) && !old(tasks)[id].state.IsTerminal() ==>
                && id in tasks && tasks[id].state == (if tool.None? then Failed else Completed)
                && tasks[id].messages == old(tasks)[id].messages + [Message("agent", [Part("text",
                     if tool.None? then "no matching tool found for this task"
                     else "dispatched to tool: " + tool.value + " (input: " + old(workers)[w].at.text + ")")])]
    {
      StepKeepsInv(Snapshot(), Conclude(w, tool));
      FinishWork(w, tool);
    }

    method FinishWork(w: nat, tool: Option<string>)
      requires Enabled(Snapshot(), Conclude(w, tool))
      modifies this
      ensures Snapshot() == Step(old(Snapshot()), Conclude(w, tool))
    {
      var _ := UpdateTask(workers[w].id, Concluding(tool, workers[w].at.text), Goroutine(w));
      workers := Moved(workers, w, Ended);
    }

    method CreatePushConfig(id: string, config: (string, string)) returns (found: bool)
      requires Valid()
      modifies this
      ensures Valid() && Snapshot() == Step(old(Snapshot()), StoreConfig(id, config)) && found == (id in old(tasks))
    {
      StepKeepsInv(Snapshot(), StoreConfig(id, config));
      found := id in tasks;
      if found { pushConfigs := Stored(pushConfigs, id, config); }
    }

    method DeletePushConfig(id: string, key: string) returns (found: bool)
      requires Valid()
      modifies this
      ensures Valid() && Snapshot() == Step(old(Snapshot()), DropConfig(id, key)) && found == (id in old(tasks))
    {
      StepKeepsInv(Snapshot(), DropConfig(id, key));
      found := id in tasks;
      if found && id in pushConfigs {
        var rest := pushConfigs[id] - {key};
        pushConfigs := if rest == map[] then pushConfigs - {id} else pushConfigs[id := rest];
      }
    }
  }
}

/** What a task is at any moment of a run, said by the events alone: which one decided its state, what
    it then holds, what is reported of it and to whom. */
module TaskOutcomes {
  import opened Prelude
  import opened TaskModel
  import opened TaskLifecycle

  // ---- one event ----

  /** The event finds the task open to it. */
  ghost predicate Open(s: State, id: string) {
    id in s.tasks && !s.tasks[id].state.IsTerminal()
  }

  ghost predicate WorksOn(s: State, w: nat, id: string) {
    w < |s.workers| && s.workers[w].id == id
  }

  function AnswerText(tool: Option<string>, text: string): string {
    match tool
    case None => "no matching tool found for this task"
    case Some(name) => "dispatched to tool: " + name + " (input: " + text + ")"
  }

  /** What an event makes of a task, if it affects it. */
  ghost function Made(s: State, e: Event, id: string): Option<Task> {
    match e
    case Send(x, messages, _) => if x == id then Some(Task(Submitted, messages)) else None
    case Cancel(x) => if x == id && Open(s, id) then Some(Task(Canceled, s.tasks[id].messages)) else None
    case Begin(w) => if WorksOn(s, w, id) && Open(s, id) then Some(Task(Working, s.tasks[id].messages)) else None
    case Conclude(w, tool) =>
      if WorksOn(s, w, id) && Open(s, id) && s.workers[w].at.Searching? then
        Some(Task(if tool.None? then Failed else Completed,
                  s.tasks[id].messages + [Message("agent", [Part("text", AnswerText(tool, s.workers[w].at.text))])]))
      else None
    case _ => None
  }

  ghost predicate Affects(s: State, e: Event, id: string) {
    Made(s, e, id).Some?
  }

  /** A step makes that of the task, and otherwise leaves it, or its absence, as it was. */
  lemma StepMakes(s: State, e: Event, id: string)
    requires Enabled(s, e)
    ensures match Made(s, e, id)
            case Some(t) => id in Step(s, e).tasks && Step(s, e).tasks[id] == t
            case None => (id in Step(s, e).tasks <==> id in s.tasks) && (id in s.tasks ==> Step(s, e).tasks[id] == s.tasks[id])
  {
    match e
    case Conclude(w, tool) => ConcludeMakes(s, w, tool, id);
    case _ =>
  }

  lemma ConcludeMakes(s: State, w: nat, tool: Option<string>, id: string)
    requires Enabled(s, Conclude(w, tool))
    ensures var s' := Step(s, Conclude(w, tool));
            if s.workers[w].id == id && Open(s, id) then
              id in s'.tasks && s'.tasks[id] == Made(s, Conclude(w, tool), id).value
            else (id in s'.tasks <==> id in s.tasks) && (id in s.tasks ==> s'.tasks[id] == s.tasks[id])
  {
  }

  // ---- the deciding event ----

  /** The event at `j` affected the task and none between it and `k` did. */
  ghost predicate Decides(es: seq<Event>, ss: seq<State>, j: int, k: nat, id: string)
    requires |ss| == |es| + 1 && k < |ss|
  {
    0 <= j < k && Affects(ss[j], es[j], id) && forall i :: j < i < k ==> !Affects(ss[i], es[i], id)
  }

  lemma {:induction false} Decided(es: seq<Event>, ss: seq<State>, k: nat, id: string) returns (j: nat)
    requires IsRun(es, ss) && k < |ss| && id in ss[k].tasks
    ensures Decides(es, ss, j, k, id) && Made(ss[j], es[j], id) == Some(ss[k].tasks[id])
  {
    StepMakes(ss[k - 1], es[k - 1], id);
    assert ss[k] == Step(ss[k - 1], es[k - 1]);
    if Affects(ss[k - 1], es[k - 1], id) {
      j := k - 1;
    } else {
      j := Decided(es, ss, k - 1, id);
    }
  }

  lemma DecidesOnce(es: seq<Event>, ss: seq<State>, i: int, j: int, k: nat, id: string)
    requires |ss| == |es| + 1 && k < |ss| && Decides(es, ss, i, k, id) && Decides(es, ss, j, k, id)
    ensures i == j
  {
  }

  /** The outcome of a task is that of the last event that affected it: it failed exactly if that was
      the end of a search that found no tool, completed exactly if it was the end of one that did, and
      so on for the other states. */
  lemma OutcomeExactly(es: seq<Event>, ss: seq<State>, k: nat, id: string) returns (j: nat)
    requires IsRun(es, ss) && k < |ss| && id in ss[k].tasks
    ensures Decides(es, ss, j, k, id) && forall i :: Decides(es, ss, i, k, id) ==> i == j
    ensures ss[k].tasks[id].state.Failed? <==> es[j].Conclude? && es[j].tool.None?
    ensures ss[k].tasks[id].state.Completed? <==> es[j].Conclude? && es[j].tool.Some?
    ensures ss[k].tasks[id].state.Canceled? <==> es[j].Cancel?
    ensures ss[k].tasks[id].state.Working? <==> es[j].Begin?
    ensures ss[k].tasks[id].state.Submitted? <==> es[j].Send?
  {
    j := Decided(es, ss, k, id);
    forall i | Decides(es, ss, i, k, id) ensures i == j { DecidesOnce(es, ss, i, j, k, id); }
  }

  /** A failed task ends in the one fixed answer, and a completed one names the tool that its own search
      found and the text its goroutine had read. */
  lemma OutcomeAnswer(es: seq<Event>, ss: seq<State>, k: nat, j: nat, id: string)
    requires IsRun(es, ss) && k < |ss| && id in ss[k].tasks && Decides(es, ss, j, k, id) && es[j].Conclude?
    ensures WorksOn(ss[j], es[j].w, id) && ss[j].workers[es[j].w].at.Searching? && id in ss[j].tasks
    ensures var text := if es[j].tool.None? then "no matching tool found for this task"
                        else "dispatched to tool: " + es[j].tool.value + " (input: " + ss[j].workers[es[j].w].at.text + ")";
            ss[k].tasks[id].messages == ss[j].tasks[id].messages + [Message("agent", [Part("text", text)])]
  {
    var i := Decided(es, ss, k, id);
    DecidesOnce(es, ss, i, j, k, id);
  }

  // ---- the text a goroutine searches with ----

  /** The goroutine's text is that of the task at the moment the goroutine began. */
  lemma {:induction false} TextWasRead(es: seq<Event>, ss: seq<State>, k: nat, w: nat) returns (j: nat)
    requires IsRun(es, ss) && k < |ss| && w < |ss[k].workers| && ss[k].workers[w].at.Searching?
    ensures j < k && es[j] == Begin(w) && WorksOn(ss[j], w, ss[k].workers[w].id) && ss[k].workers[w].id in ss[j].tasks
    ensures ss[k].workers[w].at.text == TaskText(ss[j].tasks[ss[k].workers[w].id].messages)
  {
    var s, e := ss[k - 1], es[k - 1];
    assert ss[k] == Step(s, e);
    if e == Begin(w) {
      j := k - 1;
    } else {
      WorkerStays(s, e, w);
      j := TextWasRead(es, ss, k - 1, w);
    }
  }

  lemma WorkerStays(s: State, e: Event, w: nat)
    requires Enabled(s, e) && w < |Step(s, e).workers| && Step(s, e).workers[w].at.Searching? && e != Begin(w)
    ensures w < |s.workers| && Step(s, e).workers[w] == s.workers[w]
  {
  }

  lemma LastPart(parts: seq<Part>, p: Part)
    ensures PartsText(parts + [p]) == PartsText(parts) + if p.kind == "text" then p.text + " " else ""
  {
    assert (parts + [p])[..|parts|] == parts;
  }

  lemma LastMessage(before: seq<Message>, m: Message)
    ensures TaskText(before + [m]) == TaskText(before) + if m.role == "user" then PartsText(m.parts) else ""
  {
    assert (before + [m])[..|before|] == before;
  }

  /** The text of a conversation is put together part by part: a text part of a user message adds its
      text and a blank, and nothing else adds anything. */
  lemma TextOfOnePart(before: seq<Message>, role: string, parts: seq<Part>, p: Part)
    ensures TaskText(before + [Message(role, parts + [p])]) ==
            TaskText(before + [Message(role, parts)]) + if role == "user" && p.kind == "text" then p.text + " " else ""
  {
    LastPart(parts, p);
    LastMessage(before, Message(role, parts + [p]));
    LastMessage(before, Message(role, parts));
    if role == "user" && p.kind == "text" {
      assert TaskText(before) + (PartsText(parts) + (p.text + " ")) == (TaskText(before) + PartsText(parts)) + (p.text + " ");
    }
  }

  lemma TextOfNoPart(before: seq<Message>, role: string)
    ensures TaskText([]) == "" && TaskText(before + [Message(role, [])]) == TaskText(before)
  {
    LastMessage(before, Message(role, []));
    assert TaskText(before) + "" == TaskText(before);
  }

  // ---- reports and their receivers ----

  function MakerOf(e: Event): Maker {
    match e
    case Begin(w) => Goroutine(w)
    case Conclude(w, _) => Goroutine(w)
    case _ => Handler
  }

  /** A change other than a send is reported, by whoever made it, in the new state and to exactly the
      configurations the task has; without configurations it is not reported. */
  lemma ChangeIsReported(s: State, e: Event, id: string)
    requires Enabled(s, e) && Affects(s, e, id) && !e.Send?
    ensures Step(s, e).letters ==
            if id in s.push && s.push[id] != map[]
            then s.letters + [Letter(id, Made(s, e, id).value.state, s.push[id], MakerOf(e), Unsent)]
            else s.letters
  {
  }

  /** Nothing else is reported. */
  lemma OnlyChangesAreReported(s: State, e: Event)
    requires Enabled(s, e) && (e.Send? || forall id :: !Affects(s, e, id))
    ensures |Step(s, e).letters| == |s.letters|
    ensures !e.Notify? && !e.ClearConfigs? ==> Step(s, e).letters == s.letters
    ensures Step(s, e).notices == if e.Notify? then s.notices + [e.l] else s.notices
  {
    if e.Cancel? { assert !Affects(s, e, e.id); }
    if e.Begin? || e.Conclude? { assert !Affects(s, e, s.workers[e.w].id); }
  }

  /** The configurations of a task after an event, each by its key: a send or a request stores one, a
      request drops one, the report of the end drops all, and other tasks keep theirs. */
  lemma ConfigsAfter(s: State, e: Event, id: string)
    requires Enabled(s, e)
    ensures ConfigsOf(Step(s, e).push, id) == ConfigsBy(s, e, id)
  {
    match e
    case DropConfig(x, key) => DropOne(s.push, x, key, id);
    case _ =>
  }

  ghost function ConfigsBy(s: State, e: Event, id: string): map<string, string>
    requires Enabled(s, e)
  {
    var before := ConfigsOf(s.push, id);
    match e
    case Send(x, _, Some(config)) => if x == id then before[config.0 := config.1] else before
    case StoreConfig(x, config) => if x == id && id in s.tasks then before[config.0 := config.1] else before
    case DropConfig(x, key) => if x == id && id in s.tasks then before - {key} else before
    case ClearConfigs(l) => if s.letters[l].task == id then map[] else before
    case _ => before
  }

  lemma DropOne(push: map<string, map<string, string>>, x: string, key: string, id: string)
    ensures ConfigsOf(Dropped(push, x, key), id) == if x == id then ConfigsOf(push, id) - {key} else ConfigsOf(push, id)
  {
  }
}

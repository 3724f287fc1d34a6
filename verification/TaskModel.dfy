/** A2A tasks: `handleTaskSend`, `handleTaskCancel`, `dispatchTask` and `updateTask` of
    `a2a/server.go` as steps that race under one lock. */
module TaskModel {
  import opened Prelude

  datatype TaskState = Submitted | Working | InputNeeded | Completed | Canceled | Failed {
    /** `IsTerminal`. */
    predicate IsTerminal() { Completed? || Canceled? || Failed? }

    /** How far along the lifecycle a state is. */
    function Rank(): nat {
      if Submitted? then 0 else if IsTerminal() then 2 else 1
    }
  }

  datatype Part = Part(kind: string, text: string)
  datatype Message = Message(role: string, parts: seq<Part>)
  datatype Task = Task(state: TaskState, messages: seq<Message>)

  // ---- task text and answers ----

  function PartsText(parts: seq<Part>): string {
    if parts == [] then ""
    else
      var n := |parts| - 1;
      PartsText(parts[..n]) + if parts[n].kind == "text" then parts[n].text + " " else ""
  }

  /** The text parts of the user messages, each followed by a blank. */
  function TaskText(messages: seq<Message>): string {
    if messages == [] then ""
    else
      var n := |messages| - 1;
      TaskText(messages[..n]) + if messages[n].role == "user" then PartsText(messages[n].parts) else ""
  }

  function AgentMessage(text: string): Message {
    Message("agent", [Part("text", text)])
  }

  function NoToolAnswer(): Message {
    AgentMessage("no matching tool found for this task")
  }

  function DispatchAnswer(tool: string, text: string): Message {
    AgentMessage("dispatched to tool: " + tool + " (input: " + text + ")")
  }

  // ---- the step machine ----

  /** Where a goroutine of `dispatchTask` is: before its first update, between the two updates with
      the text it read in the first, or past the second. */
  datatype Dispatch = Pending | Searching(text: string) | Ended

  /** A goroutine and the task it was started for. Sending an identifier again starts another one. */
  datatype Worker = Worker(id: string, at: Dispatch)

  /** Who made an update: a dispatch goroutine or the handler of a cancel request. */
  datatype Maker = Goroutine(w: nat) | Handler

  /** How far the maker of an update is after unlocking: it still has to notify, has notified, or has
      notified and cleared the configurations. */
  datatype Progress = Unsent | Sent | Cleared

  /** What `updateTask` hands to `notifyTaskUpdate` after unlocking: the state it set and the
      configurations it read in the critical section. */
  datatype Letter = Letter(task: string, state: TaskState, configs: map<string, string>, maker: Maker, progress: Progress)

  /** `letters` come in the order of the critical sections, `notices` are the indices of letters in the
      order of the notify calls, `history` keeps what was sent under each identifier, oldest first, and
      `canceled` the identifiers a cancel request took effect on. */
  datatype State = State(
    tasks: map<string, Task>,
    push: map<string, map<string, string>>,
    workers: seq<Worker>,
    letters: seq<Letter>,
    notices: seq<nat>,
    history: map<string, seq<seq<Message>>>,
    canceled: set<string>)

  datatype Event =
    | Send(id: string, messages: seq<Message>, config: Option<(string, string)>)
    | Cancel(id: string)
    | Begin(w: nat)
    | Conclude(w: nat, tool: Option<string>)
    | Notify(l: nat)
    | ClearConfigs(l: nat)
    | StoreConfig(id: string, entry: (string, string))
    | DropConfig(id: string, key: string)

  ghost predicate Init(s: State) {
    s == State(map[], map[], [], [], [], map[], {})
  }

  function ConfigsOf(push: map<string, map<string, string>>, id: string): map<string, string> {
    if id in push then push[id] else map[]
  }

  function Stored(push: map<string, map<string, string>>, id: string, config: (string, string)): map<string, map<string, string>> {
    push[id := ConfigsOf(push, id)[config.0 := config.1]]
  }

  function Dropped(push: map<string, map<string, string>>, id: string, key: string): map<string, map<string, string>> {
    if id !in push then push
    else if push[id] - {key} == map[] then push - {id}
    else push[id := push[id] - {key}]
  }

  function SendsOf(history: map<string, seq<seq<Message>>>, id: string): seq<seq<Message>> {
    if id in history then history[id] else []
  }

  /** The critical section of `updateTask` with a change: the entry is replaced, and when there are
      configurations the maker will notify them after unlocking. */
  function Updated(s: State, id: string, task: Task, maker: Maker): State {
    var configs := ConfigsOf(s.push, id);
    s.(tasks := s.tasks[id := task],
       letters := if configs == map[] then s.letters else s.letters + [Letter(id, task.state, configs, maker, Unsent)],
       canceled := if maker.Handler? then s.canceled + {id} else s.canceled)
  }

  /** The critical section of `updateTask`: nothing happens when the task is missing or `mutate` declines. */
  function Attempted(s: State, id: string, mutate: Task -> Option<Task>, maker: Maker): State {
    if id !in s.tasks || mutate(s.tasks[id]).None? then s else Updated(s, id, mutate(s.tasks[id]).value, maker)
  }

  /** The mutation of `handleTaskCancel`. */
  function Cancelling(): Task -> Option<Task> {
    (t: Task) => if t.state.IsTerminal() then None else Some(t.(state := Canceled))
  }

  /** The first mutation of `dispatchTask`. */
  function Starting(): Task -> Option<Task> {
    (t: Task) => if t.state.IsTerminal() then None else Some(t.(state := Working))
  }

  /** The last mutation of `dispatchTask`. */
  function Concluding(tool: Option<string>, text: string): Task -> Option<Task> {
    (t: Task) =>
      if t.state.IsTerminal() then None
      else if tool.None? then Some(Task(Failed, t.messages + [NoToolAnswer()]))
      else Some(Task(Completed, t.messages + [DispatchAnswer(tool.value, text)]))
  }

  /** The maker has no notification to make first. */
  ghost predicate Free(s: State, maker: Maker) {
    forall l :: 0 <= l < |s.letters| && s.letters[l].maker == maker ==> !s.letters[l].progress.Unsent?
  }

  /** A goroutine takes its steps in order, and each maker notifies once after its update and then
      clears the configurations of a terminal task; everything else can come at any time. */
  ghost predicate Enabled(s: State, e: Event) {
    match e
    case Begin(w) => w < |s.workers| && s.workers[w].at.Pending?
    case Conclude(w, _) => w < |s.workers| && s.workers[w].at.Searching? && Free(s, Goroutine(w))
    case Notify(l) => l < |s.letters| && s.letters[l].progress.Unsent?
    case ClearConfigs(l) => l < |s.letters| && s.letters[l].progress.Sent? && s.letters[l].state.IsTerminal()
    case _ => true
  }

  function Moved(workers: seq<Worker>, w: nat, d: Dispatch): seq<Worker>
    requires w < |workers|
  {
    workers[w := workers[w].(at := d)]
  }

  function Marked(letters: seq<Letter>, l: nat, progress: Progress): seq<Letter>
    requires l < |letters|
  {
    letters[l := letters[l].(progress := progress)]
  }

  ghost function Step(s: State, e: Event): State
    requires Enabled(s, e)
  {
    match e
    case Send(id, messages, config) =>
      s.(tasks := s.tasks[id := Task(Submitted, messages)],
         push := if config.Some? then Stored(s.push, id, config.value) else s.push,
         workers := s.workers + [Worker(id, Pending)],
         history := s.history[id := SendsOf(s.history, id) + [messages]])
    case Cancel(id) => Attempted(s, id, Cancelling(), Handler)
    case Begin(w) =>
      var id := s.workers[w].id;
      if id !in s.tasks || s.tasks[id].state.IsTerminal() then s.(workers := Moved(s.workers, w, Ended))
      else Attempted(s, id, Starting(), Goroutine(w))
           .(workers := Moved(s.workers, w, Searching(TaskText(s.tasks[id].messages))))
    case Conclude(w, tool) =>
      Attempted(s, s.workers[w].id, Concluding(tool, s.workers[w].at.text), Goroutine(w))
      .(workers := Moved(s.workers, w, Ended))
    case Notify(l) => s.(letters := Marked(s.letters, l, Sent), notices := s.notices + [l])
    case ClearConfigs(l) => s.(letters := Marked(s.letters, l, Cleared), push := s.push - {s.letters[l].task})
    case StoreConfig(id, config) => if id in s.tasks then s.(push := Stored(s.push, id, config)) else s
    case DropConfig(id, key) => if id in s.tasks then s.(push := Dropped(s.push, id, key)) else s
  }

  // ---- the invariant ----

  ghost predicate IsSentText(sends: seq<seq<Message>>, text: string) {
    exists k :: 0 <= k < |sends| && text == TaskText(sends[k])
  }

  ghost predicate Answers(messages: seq<Message>, sent: seq<Message>, tool: string, text: string) {
    messages == sent + [DispatchAnswer(tool, text)]
  }

  /** The messages a task of this state must hold: what was last sent, and on top exactly one agent
      message when it completed or failed. A completed task quotes a text sent under its identifier. */
  ghost predicate Transcript(t: Task, sends: seq<seq<Message>>)
    requires sends != []
  {
    var sent := sends[|sends| - 1];
    match t.state
    case Completed => exists tool, text :: IsSentText(sends, text) && Answers(t.messages, sent, tool, text)
    case Failed => t.messages == sent + [NoToolAnswer()]
    case _ => t.messages == sent
  }

  /** The identifier was sent exactly once. */
  ghost predicate Sole(s: State, id: string) {
    id in s.history && |s.history[id]| == 1
  }

  ghost predicate Agrees(d: Dispatch, t: Task) {
    match d
    case Pending => t.state.Submitted? || t.state.Canceled?
    case Searching(_) => t.state.Working? || t.state.Canceled?
    case Ended => t.state.IsTerminal()
  }

  ghost predicate Busy(workers: seq<Worker>, w: int, id: string) {
    0 <= w < |workers| && workers[w].id == id && !workers[w].at.Ended?
  }

  /** What is recorded belongs to a task, and only changes away from submitted are reported. */
  ghost predicate Tied(s: State) {
    && s.history.Keys == s.tasks.Keys
    && (forall id :: id in s.history ==> s.history[id] != [])
    && (forall w :: 0 <= w < |s.workers| ==> s.workers[w].id in s.tasks)
    && (forall l :: 0 <= l < |s.letters| ==> s.letters[l].task in s.tasks && s.letters[l].state.Rank() > 0)
  }

  /** A task that is not terminal has a goroutine that will still update it. */
  ghost predicate TaskSound(s: State, id: string)
    requires Tied(s) && id in s.tasks
  {
    && !s.tasks[id].state.InputNeeded?
    && Transcript(s.tasks[id], s.history[id])
    && (s.tasks[id].state.IsTerminal() || exists w :: Busy(s.workers, w, id))
  }

  /** A goroutine searches with a text sent for its task; the only goroutine of a task sent once is
      where the state of the task says. */
  ghost predicate WorkerSound(s: State, w: nat)
    requires Tied(s) && w < |s.workers|
  {
    var id := s.workers[w].id;
    && (s.workers[w].at.Searching? ==> IsSentText(s.history[id], s.workers[w].at.text))
    && (Sole(s, id) ==> Agrees(s.workers[w].at, s.tasks[id]))
    && (Sole(s, id) ==> forall v :: 0 <= v < |s.workers| && s.workers[v].id == id ==> v == w)
  }

  /** Changes of a task sent once are to ever later states, none later than the present one. */
  ghost predicate LettersForward(s: State)
    requires Tied(s)
  {
    && (forall l :: 0 <= l < |s.letters| && Sole(s, s.letters[l].task) ==>
          s.letters[l].state.Rank() <= s.tasks[s.letters[l].task].state.Rank())
    && (forall j, l :: 0 <= j < l < |s.letters| && s.letters[j].task == s.letters[l].task && Sole(s, s.letters[j].task) ==>
          s.letters[j].state.Rank() < s.letters[l].state.Rank())
  }

  /** Every change is reported once, when its maker gets to it. */
  ghost predicate NoticesExact(s: State) {
    && (forall k :: 0 <= k < |s.notices| ==> s.notices[k] < |s.letters| && !s.letters[s.notices[k]].progress.Unsent?)
    && (forall j, k :: 0 <= j < k < |s.notices| ==> s.notices[j] != s.notices[k])
  }

  /** Sent once and not canceled: only its one goroutine ever changes it. */
  ghost predicate Calm(s: State, id: string) {
    Sole(s, id) && id !in s.canceled
  }

  ghost predicate MadeByWorker(s: State, l: nat)
    requires l < |s.letters|
  {
    var maker := s.letters[l].maker;
    maker.Goroutine? && maker.w < |s.workers| && s.workers[maker.w].id == s.letters[l].task
  }

  /** A goroutine reports one change before it makes the next. */
  ghost predicate CalmInOrder(s: State) {
    && (forall l: nat :: l < |s.letters| && Calm(s, s.letters[l].task) ==> MadeByWorker(s, l))
    && (forall j, l :: 0 <= j < l < |s.letters| && s.letters[j].task == s.letters[l].task && Calm(s, s.letters[j].task) ==>
          !s.letters[j].progress.Unsent?)
    && (forall j, k :: 0 <= j < k < |s.notices| && s.notices[j] < |s.letters| && s.notices[k] < |s.letters| &&
                       s.letters[s.notices[j]].task == s.letters[s.notices[k]].task &&
                       Calm(s, s.letters[s.notices[j]].task) ==>
          s.notices[j] < s.notices[k])
  }

  ghost predicate TasksSound(s: State)
    requires Tied(s)
  {
    && (forall id :: id in s.tasks ==> TaskSound(s, id))
    && (forall w :: 0 <= w < |s.workers| ==> WorkerSound(s, w))
  }

  ghost predicate Inv(s: State) {
    Tied(s) && TasksSound(s) && LettersForward(s) && NoticesExact(s) && CalmInOrder(s)
  }
}

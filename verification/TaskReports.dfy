/** Which runs of the task server report a task once, in order, and with its own text. */
module TaskReports {
  import opened Prelude
  import opened TaskModel
  import opened TaskLifecycle

  // ---- what sending twice and canceling break ----

  ghost predicate Reached(s: State) {
    exists es: seq<Event>, ss: seq<State> :: IsRun(es, ss) && ss[|es|] == s
  }

  lemma ReachedStep(s: State, e: Event)
    requires Reached(s) && Enabled(s, e)
    ensures Reached(Step(s, e))
  {
    var es: seq<Event>, ss: seq<State> :| IsRun(es, ss) && ss[|es|] == s;
    ExtendRun(es, ss, e);
    assert (ss + [Step(s, e)])[|es + [e]|] == Step(s, e);
  }

  lemma ExtendRun(es: seq<Event>, ss: seq<State>, e: Event)
    requires IsRun(es, ss) && Enabled(ss[|es|], e)
    ensures IsRun(es + [e], ss + [Step(ss[|es|], e)])
  {
    var es', ss' := es + [e], ss + [Step(ss[|es|], e)];
    forall k | 0 <= k < |es'| ensures Enabled(ss'[k], es'[k]) && ss'[k + 1] == Step(ss'[k], es'[k]) {
      if k < |es| { assert es'[k] == es[k] && ss'[k] == ss[k] && ss'[k + 1] == ss[k + 1]; }
    }
  }

  lemma ReachedInit(s: State)
    requires Init(s)
    ensures Reached(s)
  {
    var es: seq<Event>, ss := [], [s];
    assert IsRun(es, ss) && ss[|es|] == s;
  }

  lemma ReachedThree(s: State, a: Event, b: Event, c: Event)
    requires Reached(s) && Enabled(s, a) && Enabled(Step(s, a), b) && Enabled(Step(Step(s, a), b), c)
    ensures Reached(Step(Step(s, a), b)) && Reached(Step(Step(Step(s, a), b), c))
  {
    ReachedStep(s, a);
    ReachedStep(Step(s, a), b);
    ReachedStep(Step(Step(s, a), b), c);
  }

  lemma ReachedInv(s: State)
    requires Reached(s)
    ensures Inv(s)
  {
    var es: seq<Event>, ss: seq<State> :| IsRun(es, ss) && ss[|es|] == s;
    InvAlongRun(es, ss, |es|);
  }

  ghost predicate SentAtMost(s: State, id: string, n: nat) {
    id in s.history && |s.history[id]| <= n
  }

  /** Two notify calls about a task, the earlier one first. */
  ghost predicate NoticePair(s: State, id: string, a: nat, b: nat) {
    && a < b < |s.notices| && s.notices[a] < |s.letters| && s.notices[b] < |s.letters|
    && s.letters[s.notices[a]].task == s.letters[s.notices[b]].task == id
  }

  /** How far along the state reported by a notify call is. */
  ghost function Reports(s: State, a: nat): nat
    requires a < |s.notices| && s.notices[a] < |s.letters|
  {
    s.letters[s.notices[a]].state.Rank()
  }

  /** A task sent at most `n` times is reported working at most once and ended at most once. */
  ghost predicate ReportsOnce(n: nat) {
    forall s: State, id: string, a: nat, b: nat ::
      Reached(s) && SentAtMost(s, id, n) && NoticePair(s, id, a, b) ==> Reports(s, a) != Reports(s, b)
  }

  /** Notify calls about a task sent at most `n` times, and canceled only if `cancels`, come in order,
      so nothing is reported after the end. */
  ghost predicate ReportsInOrder(n: nat, cancels: bool) {
    forall s: State, id: string, a: nat, b: nat ::
      Reached(s) && SentAtMost(s, id, n) && (id in s.canceled ==> cancels) && NoticePair(s, id, a, b) ==>
        Reports(s, a) < Reports(s, b)
  }

  lemma SoleReportsOnce(s: State, id: string, a: nat, b: nat)
    requires Reached(s) && SentAtMost(s, id, 1) && NoticePair(s, id, a, b)
    ensures Reports(s, a) != Reports(s, b)
  {
    ReachedInv(s);
    assert Sole(s, id);
    LettersDiffer(s, id, a, b);
  }

  lemma LettersDiffer(s: State, id: string, a: nat, b: nat)
    requires Tied(s) && LettersForward(s) && NoticesExact(s) && Sole(s, id) && NoticePair(s, id, a, b)
    ensures Reports(s, a) != Reports(s, b)
    ensures s.notices[a] < s.notices[b] ==> Reports(s, a) < Reports(s, b)
  {
    var i, j := s.notices[a], s.notices[b];
    assert i != j;
  }

  lemma CalmReportsInOrder(s: State, id: string, a: nat, b: nat)
    requires Reached(s) && SentAtMost(s, id, 1) && id !in s.canceled && NoticePair(s, id, a, b)
    ensures Reports(s, a) < Reports(s, b)
  {
    ReachedInv(s);
    assert Calm(s, id);
    LettersDiffer(s, id, a, b);
  }

  function Hook(): (string, string) { ("c", "u") }

  function Hooks(): map<string, string> { map["c" := "u"] }

  function Fresh(): State { State(map[], map[], [], [], [], map[], {}) }

  /** The server after a first task was sent with one configuration. */
  ghost function SentOnce(): (s: State)
    ensures s == Step(Fresh(), Send("t", [], Some(Hook())))
    ensures SentAtMost(s, "t", 1) && s.canceled == {} && s.letters == [] && s.notices == []
    ensures s.tasks == map["t" := Task(Submitted, [])] && ConfigsOf(s.push, "t") == Hooks()
    ensures s.workers == [Worker("t", Pending)]
  {
    Step(Fresh(), Send("t", [], Some(Hook())))
  }

  lemma SentOnceReached()
    ensures Reached(SentOnce())
  {
    ReachedInit(Fresh());
    ReachedStep(Fresh(), Send("t", [], Some(Hook())));
  }

  lemma BeginWrites(s: State, w: nat)
    requires Enabled(s, Begin(w)) && s.workers[w].id == "t" && "t" in s.tasks && !s.tasks["t"].state.IsTerminal()
    requires ConfigsOf(s.push, "t") == Hooks()
    ensures var s' := Step(s, Begin(w));
            && s'.letters == s.letters + [Letter("t", Working, Hooks(), Goroutine(w), Unsent)]
            && s'.push == s.push && s'.history == s.history && s'.notices == s.notices && s'.canceled == s.canceled
            && "t" in s'.tasks && s'.tasks["t"].state == Working
            && |s'.workers| == |s.workers| && forall v :: 0 <= v < |s.workers| && v != w ==> s'.workers[v] == s.workers[v]
  {
    assert "c" in Hooks();
  }

  /** Two letters reported one after the other. */
  lemma BothNotified(s: State, first: nat, second: nat)
    requires s.notices == [] && first < |s.letters| && second < |s.letters| && first != second
    requires s.letters[first].progress.Unsent? && s.letters[second].progress.Unsent?
    ensures Enabled(s, Notify(first)) && Enabled(Step(s, Notify(first)), Notify(second))
    ensures var s' := Step(Step(s, Notify(first)), Notify(second));
            && s'.notices == [first, second] && |s'.letters| == |s.letters|
            && s'.history == s.history && s'.canceled == s.canceled
            && forall l :: 0 <= l < |s.letters| ==>
                 s'.letters[l].task == s.letters[l].task && s'.letters[l].state == s.letters[l].state
  {
  }

  /** The same identifier sent again, without a configuration of its own. */
  ghost function SentTwice(): (s: State)
    ensures s == Step(SentOnce(), Send("t", [], None))
    ensures SentAtMost(s, "t", 2) && s.canceled == {} && s.letters == [] && s.notices == []
    ensures "t" in s.tasks && s.tasks["t"].state == Submitted && ConfigsOf(s.push, "t") == Hooks()
    ensures s.workers == [Worker("t", Pending), Worker("t", Pending)]
  {
    Step(SentOnce(), Send("t", [], None))
  }

  lemma SentTwiceReached()
    ensures Reached(SentTwice())
  {
    SentOnceReached();
    ReachedStep(SentOnce(), Send("t", [], None));
  }

  /** Two goroutines of one identifier have both begun, and neither has reported it. */
  lemma BothBegin() returns (s: State)
    ensures Reached(s) && SentAtMost(s, "t", 2) && s.canceled == {} && s.notices == []
    ensures s.letters == [Letter("t", Working, Hooks(), Goroutine(0), Unsent), Letter("t", Working, Hooks(), Goroutine(1), Unsent)]
  {
    var s2 := SentTwice();
    BeginWrites(s2, 0);
    var s3 := Step(s2, Begin(0));
    BeginWrites(s3, 1);
    s := Step(s3, Begin(1));
    SentTwiceReached();
    ReachedStep(s2, Begin(0));
    ReachedStep(s3, Begin(1));
  }

  /** Both report that the task is being worked on. */
  lemma ResentIsReportedTwice() returns (s: State)
    ensures Reached(s) && SentAtMost(s, "t", 2) && s.canceled == {}
    ensures NoticePair(s, "t", 0, 1) && Reports(s, 0) == Reports(s, 1)
  {
    var s4 := BothBegin();
    BothNotified(s4, 0, 1);
    ReachedStep(s4, Notify(0));
    var s5 := Step(s4, Notify(0));
    ReachedStep(s5, Notify(1));
    s := Step(s5, Notify(1));
  }

  lemma CancelWrites(s: State)
    requires "t" in s.tasks && !s.tasks["t"].state.IsTerminal() && ConfigsOf(s.push, "t") == Hooks()
    ensures var s' := Step(s, Cancel("t"));
            && s'.letters == s.letters + [Letter("t", Canceled, Hooks(), Handler, Unsent)]
            && s'.history == s.history && s'.notices == s.notices
  {
    assert "c" in Hooks();
  }

  /** The goroutine unlocks, a cancel request is handled and reported, and only then does the goroutine
      report that it had begun. */
  lemma CanceledIsReportedFirst() returns (s: State)
    ensures Reached(s) && SentAtMost(s, "t", 1)
    ensures NoticePair(s, "t", 0, 1) && Reports(s, 0) > Reports(s, 1)
  {
    var s1 := SentOnce();
    BeginWrites(s1, 0);
    var s2 := Step(s1, Begin(0));
    CancelWrites(s2);
    var s3 := Step(s2, Cancel("t"));
    BothNotified(s3, 1, 0);
    var s4 := Step(s3, Notify(1));
    s := Step(s4, Notify(0));
    SentOnceReached();
    ReachedThree(s1, Begin(0), Cancel("t"), Notify(1));
    ReachedStep(s4, Notify(0));
  }

  /** In all runs each stage of a task is reported at most once, exactly if identifiers are not reused. */
  lemma ReportsOnceExactlyWhenSentOnce(n: nat)
    ensures ReportsOnce(n) <==> n <= 1
  {
    if n <= 1 {
      forall s: State, id: string, a: nat, b: nat |
        Reached(s) && SentAtMost(s, id, n) && NoticePair(s, id, a, b)
        ensures Reports(s, a) != Reports(s, b)
      {
        SoleReportsOnce(s, id, a, b);
      }
    } else {
      var s := ResentIsReportedTwice();
      assert SentAtMost(s, "t", n);
    }
  }

  lemma NeverSentNeverReported(s: State, id: string)
    requires Reached(s)
    ensures !SentAtMost(s, id, 0)
  {
    ReachedInv(s);
  }

  /** In all runs a task is reported in order, and nothing after its end, exactly if its identifier is
      not reused and it is not canceled. */
  lemma ReportsInOrderExactlyWhen(n: nat, cancels: bool)
    ensures ReportsInOrder(n, cancels) <==> n == 0 || (n == 1 && !cancels)
  {
    if n == 0 || (n == 1 && !cancels) {
      forall s: State, id: string, a: nat, b: nat |
        Reached(s) && SentAtMost(s, id, n) && (id in s.canceled ==> cancels) && NoticePair(s, id, a, b)
        ensures Reports(s, a) < Reports(s, b)
      {
        NeverSentNeverReported(s, id);
        CalmReportsInOrder(s, id, a, b);
      }
    } else if n == 1 {
      var s := CanceledIsReportedFirst();
    } else {
      var s := ResentIsReportedTwice();
      assert SentAtMost(s, "t", n);
    }
  }

  // ---- whose text is quoted ----

  ghost predicate Quotes(messages: seq<Message>, sent: seq<Message>, text: string) {
    exists tool :: Answers(messages, sent, tool, text)
  }

  ghost predicate QuotesLast(t: Task, sends: seq<seq<Message>>) {
    sends != [] && Quotes(t.messages, sends[|sends| - 1], TaskText(sends[|sends| - 1]))
  }

  /** A completed task sent at most `n` times quotes the text of its own messages. */
  ghost predicate QuotesOwnText(n: nat) {
    forall s: State, id: string ::
      Reached(s) && SentAtMost(s, id, n) && id in s.tasks && s.tasks[id].state.Completed? ==>
        QuotesLast(s.tasks[id], s.history[id])
  }

  lemma ReachedTranscript(s: State, id: string)
    requires Reached(s) && id in s.tasks
    ensures id in s.history && s.history[id] != [] && Transcript(s.tasks[id], s.history[id])
  {
    ReachedInv(s);
    assert TaskSound(s, id);
  }

  lemma SoleTranscriptQuotes(t: Task, sends: seq<seq<Message>>)
    requires |sends| == 1 && t.state.Completed? && Transcript(t, sends)
    ensures QuotesLast(t, sends)
  {
    var tool, text :| IsSentText(sends, text) && Answers(t.messages, sends[0], tool, text);
    assert text == TaskText(sends[0]);
  }

  lemma SoleQuotes(s: State, id: string)
    requires Reached(s) && SentAtMost(s, id, 1) && id in s.tasks && s.tasks[id].state.Completed?
    ensures QuotesLast(s.tasks[id], s.history[id])
  {
    ReachedTranscript(s, id);
    SoleTranscriptQuotes(s.tasks[id], s.history[id]);
  }

  lemma AnswersDiffer(tool: string)
    ensures DispatchAnswer("y", "x ") != DispatchAnswer(tool, "")
  {
    var a := "dispatched to tool: " + "y" + " (input: " + "x " + ")";
    var b := "dispatched to tool: " + tool + " (input: " + "" + ")";
    assert a[|a| - 3] == 'x' && b[|b| - 3] == ':';
    assert DispatchAnswer("y", "x ").parts[0].text == a && DispatchAnswer(tool, "").parts[0].text == b;
  }

  function Request(): seq<Message> { [Message("user", [Part("text", "x")])] }

  lemma RequestText()
    ensures TaskText(Request()) == "x "
  {
    assert PartsText([Part("text", "x")]) == PartsText([]) + "x ";
    assert TaskText(Request()) == TaskText([]) + PartsText([Part("text", "x")]);
  }

  /** A task without configurations was sent, and its goroutine has read the text. */
  ghost function ReadOnce(): (s: State)
    ensures "t" in s.history && s.history["t"] == [Request()] && s.push == map[] && s.letters == []
    ensures s.workers == [Worker("t", Searching("x "))]
  {
    RequestText();
    Step(Step(Fresh(), Send("t", Request(), None)), Begin(0))
  }

  lemma ReadOnceReached()
    ensures Reached(ReadOnce())
  {
    ReachedInit(Fresh());
    ReachedStep(Fresh(), Send("t", Request(), None));
    ReachedStep(Step(Fresh(), Send("t", Request(), None)), Begin(0));
  }

  /** A goroutine that read the first text completes the task of the second. */
  lemma ResentQuotesOldText() returns (s: State)
    ensures Reached(s) && SentAtMost(s, "t", 2) && "t" in s.tasks && s.tasks["t"].state.Completed?
    ensures !QuotesLast(s.tasks["t"], s.history["t"])
  {
    var s2 := ReadOnce();
    var s3 := Step(s2, Send("t", [], None));
    assert s3.workers[0] == Worker("t", Searching("x ")) && s3.tasks["t"] == Task(Submitted, []);
    s := Step(s3, Conclude(0, Some("y")));
    assert s.tasks["t"].messages == [DispatchAnswer("y", "x ")] && s.history["t"] == [Request(), []];
    forall tool ensures !Answers(s.tasks["t"].messages, [], tool, "") {
      AnswersDiffer(tool);
      assert s.tasks["t"].messages[0] != ([] + [DispatchAnswer(tool, "")])[0];
    }
    assert Reached(s) by {
      ReadOnceReached();
      ReachedStep(s2, Send("t", [], None));
      ReachedStep(s3, Conclude(0, Some("y")));
    }
  }

  /** A completed task quotes its own text exactly if identifiers are not reused. */
  lemma QuotesOwnTextExactlyWhenSentOnce(n: nat)
    ensures QuotesOwnText(n) <==> n <= 1
  {
    if n <= 1 {
      forall s: State, id: string |
        Reached(s) && SentAtMost(s, id, n) && id in s.tasks && s.tasks[id].state.Completed?
        ensures QuotesLast(s.tasks[id], s.history[id])
      {
        SoleQuotes(s, id);
      }
    } else {
      var s := ResentQuotesOldText();
      assert SentAtMost(s, "t", n);
    }
  }
}

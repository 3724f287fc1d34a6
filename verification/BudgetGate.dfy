/** Budget gating around concurrent tool calls: `Middleware` (`finops/finops.go`) and
    `ScopedMiddleware` with its per-scope trackers (`finops/scope.go`), as check and record steps. */
module BudgetGate {
  import opened Prelude
  import opened Sums
  import opened UsageTracker

  datatype Scope = Scope(tenant: string, user: string, session: string)

  /** Which middleware a call goes through: the plain one, gated by the global budget, or the scoped
      one, gated by the budget of the scope if the caller's identity resolves to one. */
  datatype Kind = Plain | Scoped(scope: Option<Scope>)

  /** Where a call is: past its gate, recorded globally but not yet in its scope, done, or rejected. */
  datatype Phase = Running(kind: Kind) | HalfRecorded(scope: Scope, entry: Entry) | Finished | Rejected

  datatype Config = Config(tokenBudget: int, budgets: map<Scope, int>)

  /** A global entry, with the kind of call that recorded it. */
  datatype Line = Line(kind: Kind, entry: Entry)

  datatype State = State(lines: seq<Line>, scoped: map<Scope, seq<Entry>>, calls: seq<Phase>)

  datatype Event = Start(kind: Kind) | RecordGlobal(i: nat, entry: Entry) | RecordScoped(i: nat)

  ghost predicate Init(s: State) {
    s == State([], map[], [])
  }

  function Entries(lines: seq<Line>): (es: seq<Entry>)
    ensures |es| == |lines| && forall i :: 0 <= i < |lines| ==> es[i] == lines[i].entry
  {
    seq(|lines|, i requires 0 <= i < |lines| => lines[i].entry)
  }

  function InScope(scoped: map<Scope, seq<Entry>>, scope: Scope): seq<Entry> {
    if scope in scoped then scoped[scope] else []
  }

  /** The check before execution. Only a positive budget gates. */
  predicate PassesGate(cfg: Config, s: State, kind: Kind) {
    match kind
    case Plain => cfg.tokenBudget > 0 ==> TotalOf(Entries(s.lines)) < cfg.tokenBudget
    case Scoped(None) => true
    case Scoped(Some(sc)) => sc in cfg.budgets && cfg.budgets[sc] > 0 ==> TotalOf(InScope(s.scoped, sc)) < cfg.budgets[sc]
  }

  function ScopeOf(kind: Kind): Option<Scope> {
    if kind.Plain? then None else kind.scope
  }

  ghost predicate Enabled(s: State, e: Event) {
    match e
    case Start(_) => true
    case RecordGlobal(i, _) => i < |s.calls| && s.calls[i].Running?
    case RecordScoped(i) => i < |s.calls| && s.calls[i].HalfRecorded?
  }

  function Step(cfg: Config, s: State, e: Event): State
    requires Enabled(s, e)
  {
    match e
    case Start(kind) => s.(calls := s.calls + [if PassesGate(cfg, s, kind) then Running(kind) else Rejected])
    case RecordGlobal(i, entry) =>
      var scope := ScopeOf(s.calls[i].kind);
      s.(lines := s.lines + [Line(s.calls[i].kind, entry)],
         calls := s.calls[i := if scope.Some? then HalfRecorded(scope.value, entry) else Finished])
    case RecordScoped(i) =>
      var p := s.calls[i];
      s.(scoped := s.scoped[p.scope := InScope(s.scoped, p.scope) + [p.entry]], calls := s.calls[i := Finished])
  }

  ghost predicate IsRun(cfg: Config, es: seq<Event>, ss: seq<State>) {
    && |ss| == |es| + 1 && Init(ss[0])
    && forall k :: 0 <= k < |es| ==> Enabled(ss[k], es[k]) && ss[k + 1] == Step(cfg, ss[k], es[k])
  }

  lemma EntriesAppend(lines: seq<Line>, l: Line)
    ensures Entries(lines + [l]) == Entries(lines) + [l.entry]
  {
  }

  // ---- who is turned away ----

  /** The tokens of all global records made by some events. */
  function Recorded(es: seq<Event>): int {
    if es == [] then 0
    else
      var e := es[|es| - 1];
      Recorded(es[..|es| - 1]) + if e.RecordGlobal? then e.entry.input + e.entry.output else 0
  }

  /** The global tracker holds what the calls recorded, no less and no more. */
  lemma {:induction false} GlobalTotalIsRecorded(cfg: Config, es: seq<Event>, ss: seq<State>, k: nat)
    requires IsRun(cfg, es, ss) && k < |ss|
    ensures TotalOf(Entries(ss[k].lines)) == Recorded(es[..k])
  {
    if k > 0 {
      GlobalTotalIsRecorded(cfg, es, ss, k - 1);
      assert es[..k][..k - 1] == es[..k - 1];
      StepRecords(cfg, ss[k - 1], es[k - 1]);
    }
  }

  lemma StepRecords(cfg: Config, s: State, e: Event)
    requires Enabled(s, e)
    ensures TotalOf(Entries(Step(cfg, s, e).lines)) ==
            TotalOf(Entries(s.lines)) + if e.RecordGlobal? then e.entry.input + e.entry.output else 0
  {
    if e.RecordGlobal? {
      EntriesAppend(s.lines, Line(s.calls[e.i].kind, e.entry));
      TotalAppend(Entries(s.lines), e.entry);
    }
  }

  /** A plain call is turned away exactly if there is a positive global budget and what was recorded
      before has reached it; otherwise it runs. */
  lemma PlainRejectedExactlyWhen(cfg: Config, es: seq<Event>, ss: seq<State>, k: nat)
    requires IsRun(cfg, es, ss) && k < |es| && es[k] == Start(Plain)
    ensures ss[k + 1].calls ==
            ss[k].calls + [if cfg.tokenBudget > 0 && Recorded(es[..k]) >= cfg.tokenBudget then Rejected else Running(Plain)]
  {
    GlobalTotalIsRecorded(cfg, es, ss, k);
  }

  /** A call of a scope is turned away exactly if the scope has a positive budget and its tracker has
      reached it, whatever the global total; a call whose scope is not resolved never is. */
  lemma ScopedRejectedExactlyWhen(cfg: Config, es: seq<Event>, ss: seq<State>, k: nat)
    requires IsRun(cfg, es, ss) && k < |es| && es[k].Start? && es[k].kind.Scoped?
    ensures es[k].kind.scope.None? ==> ss[k + 1].calls == ss[k].calls + [Running(es[k].kind)]
    ensures es[k].kind.scope.Some? ==>
              var sc := es[k].kind.scope.value;
              var full := sc in cfg.budgets && cfg.budgets[sc] > 0 && sc in ss[k].scoped &&
                          TotalOf(ss[k].scoped[sc]) >= cfg.budgets[sc];
              ss[k + 1].calls == ss[k].calls + [if full then Rejected else Running(es[k].kind)]
  {
  }

  // ---- overshoot ----

  /** A tracker whose budget is watched: the global one or that of a scope. */
  datatype Which = Global | Of(scope: Scope)

  function TotalAt(w: Which, s: State): int {
    if w.Global? then TotalOf(Entries(s.lines)) else TotalOf(InScope(s.scoped, w.scope))
  }

  function BudgetAt(cfg: Config, w: Which): int {
    if w.Global? then cfg.tokenBudget else if w.scope in cfg.budgets then cfg.budgets[w.scope] else 0
  }

  function KindAt(w: Which): Kind {
    if w.Global? then Plain else Scoped(Some(w.scope))
  }

  function Positive(x: int): nat { if x > 0 then x else 0 }

  /** What is counted over the calls. `InFlight`: calls past the gate of a tracker that have not yet
      recorded in it. `Claims`: what those may still add, at most `m` each, or the tokens already
      recorded globally. `Owed`: tokens recorded globally for a scope but not yet in its tracker. */
  datatype Metric = InFlight(w: Which) | Claims(w: Which, m: nat) | Owed(scope: Scope)

  function Weight(x: Metric, p: Phase): int {
    match x
    case InFlight(w) => if p == Running(KindAt(w)) || (w.Of? && p.HalfRecorded? && p.scope == w.scope) then 1 else 0
    case Claims(w, m) =>
      if p == Running(KindAt(w)) then m
      else if w.Of? && p.HalfRecorded? && p.scope == w.scope then Positive(Tokens(p.entry)) else 0
    case Owed(scope) => if p.HalfRecorded? && p.scope == scope then Tokens(p.entry) else 0
  }

  function Weights(x: Metric, calls: seq<Phase>): (ws: seq<int>)
    ensures |ws| == |calls| && forall i :: 0 <= i < |calls| ==> ws[i] == Weight(x, calls[i])
  {
    seq(|calls|, i requires 0 <= i < |calls| => Weight(x, calls[i]))
  }

  function Count(x: Metric, calls: seq<Phase>): int {
    Sum(Weights(x, calls))
  }

  lemma CountUpdate(x: Metric, calls: seq<Phase>, i: nat, p: Phase)
    requires i < |calls|
    ensures Count(x, calls[i := p]) == Count(x, calls) - Weight(x, calls[i]) + Weight(x, p)
  {
    SumUpdate(Weights(x, calls), i, Weight(x, p));
    assert Weights(x, calls[i := p]) == Weights(x, calls)[i := Weight(x, p)];
  }

  lemma CountAppend(x: Metric, calls: seq<Phase>, p: Phase)
    ensures Count(x, calls + [p]) == Count(x, calls) + Weight(x, p)
  {
    SumAppend(Weights(x, calls), Weight(x, p));
    assert Weights(x, calls + [p]) == Weights(x, calls) + [Weight(x, p)];
  }

  /** A call that passed the gate of the tracker records at most `m` tokens. */
  ghost predicate Obeys(w: Which, m: nat, s: State, e: Event) {
    e.RecordGlobal? && e.i < |s.calls| && s.calls[e.i] == Running(KindAt(w)) ==> Tokens(e.entry) <= m
  }

  /** What calls that pass no global gate have recorded globally. */
  function Ungated(lines: seq<Line>): nat {
    if lines == [] then 0
    else
      var l := lines[|lines| - 1];
      Ungated(lines[..|lines| - 1]) + if l.kind.Plain? then 0 else Positive(Tokens(l.entry))
  }

  function UngatedAt(w: Which, s: State): nat {
    if w.Global? then Ungated(s.lines) else 0
  }

  /** A call of the scope that has recorded globally claims at most `m`. */
  ghost predicate ClaimsSmall(w: Which, m: nat, s: State) {
    w.Of? ==> forall i :: 0 <= i < |s.calls| && s.calls[i].HalfRecorded? && s.calls[i].scope == w.scope ==>
                Tokens(s.calls[i].entry) <= m
  }

  lemma ClaimsWithinFlight(w: Which, m: nat, s: State)
    requires ClaimsSmall(w, m, s)
    ensures Count(Claims(w, m), s.calls) <= m * Count(InFlight(w), s.calls)
  {
    SumScaled(Weights(Claims(w, m), s.calls), Weights(InFlight(w), s.calls), m);
  }

  /** `limit` stands for B - 1 + k * m. */
  ghost predicate WithinBound(w: Which, m: nat, limit: int, s: State) {
    ClaimsSmall(w, m, s) && TotalAt(w, s) + Count(Claims(w, m), s.calls) <= limit + UngatedAt(w, s)
  }

  lemma MulMonotone(m: nat, a: int, b: int)
    requires a <= b
    ensures m * a <= b * m
  {
  }

  lemma StartStaysWithin(cfg: Config, w: Which, k: nat, m: nat, limit: int, s: State, kind: Kind)
    requires BudgetAt(cfg, w) > 0 && limit == BudgetAt(cfg, w) - 1 + k * m
    requires WithinBound(w, m, limit, s)
    requires Count(InFlight(w), Step(cfg, s, Start(kind)).calls) <= k
    ensures WithinBound(w, m, limit, Step(cfg, s, Start(kind)))
  {
    var s' := Step(cfg, s, Start(kind));
    var p := s'.calls[|s.calls|];
    CountAppend(Claims(w, m), s.calls, p);
    if p == Running(KindAt(w)) {
      assert TotalAt(w, s) < BudgetAt(cfg, w);
      ClaimsWithinFlight(w, m, s');
      MulMonotone(m, Count(InFlight(w), s'.calls), k);
    }
  }

  lemma RecordGlobalStaysWithin(cfg: Config, w: Which, m: nat, limit: int, s: State, i: nat, entry: Entry)
    requires WithinBound(w, m, limit, s) && Enabled(s, RecordGlobal(i, entry)) && Obeys(w, m, s, RecordGlobal(i, entry))
    ensures WithinBound(w, m, limit, Step(cfg, s, RecordGlobal(i, entry)))
  {
    var s' := Step(cfg, s, RecordGlobal(i, entry));
    CountUpdate(Claims(w, m), s.calls, i, s'.calls[i]);
    EntriesAppend(s.lines, s'.lines[|s.lines|]);
    TotalAppend(Entries(s.lines), entry);
    UngatedAppend(s.lines, s'.lines[|s.lines|]);
  }

  /** A scoped recording raises the total of its own scope and no other. */
  lemma ScopedTotalAfter(cfg: Config, s: State, i: nat, scope: Scope)
    requires Enabled(s, RecordScoped(i))
    ensures TotalOf(InScope(Step(cfg, s, RecordScoped(i)).scoped, scope)) ==
            TotalOf(InScope(s.scoped, scope)) + if s.calls[i].scope == scope then Tokens(s.calls[i].entry) else 0
  {
    TotalAppend(InScope(s.scoped, s.calls[i].scope), s.calls[i].entry);
  }

  lemma RecordScopedStaysWithin(cfg: Config, w: Which, m: nat, limit: int, s: State, i: nat)
    requires WithinBound(w, m, limit, s) && Enabled(s, RecordScoped(i))
    ensures WithinBound(w, m, limit, Step(cfg, s, RecordScoped(i)))
  {
    CountUpdate(Claims(w, m), s.calls, i, Finished);
    if w.Of? { ScopedTotalAfter(cfg, s, i, w.scope); }
  }

  lemma {:induction false} BoundAlongRun(cfg: Config, es: seq<Event>, ss: seq<State>, w: Which, k: nat, m: nat, limit: int, j: nat)
    requires IsRun(cfg, es, ss) && j < |ss| && BudgetAt(cfg, w) > 0 && limit == BudgetAt(cfg, w) - 1 + k * m
    requires forall i :: 0 <= i < |es| ==> Obeys(w, m, ss[i], es[i])
    requires forall i :: 0 <= i < |ss| ==> Count(InFlight(w), ss[i].calls) <= k
    ensures WithinBound(w, m, limit, ss[j])
  {
    if j == 0 {
      assert k * m >= 0;
    } else {
      BoundAlongRun(cfg, es, ss, w, k, m, limit, j - 1);
      assert ss[j] == Step(cfg, ss[j - 1], es[j - 1]);
      match es[j - 1]
      case Start(kind) => StartStaysWithin(cfg, w, k, m, limit, ss[j - 1], kind);
      case RecordGlobal(i, entry) => RecordGlobalStaysWithin(cfg, w, m, limit, ss[j - 1], i, entry);
      case RecordScoped(i) => RecordScopedStaysWithin(cfg, w, m, limit, ss[j - 1], i);
    }
  }

  /** At most `k` calls past the gate of the tracker at a time, each recording at most `m` tokens. */
  ghost predicate Tame(w: Which, k: nat, m: nat, es: seq<Event>, ss: seq<State>) {
    && |es| <= |ss|
    && (forall i :: 0 <= i < |es| ==> Obeys(w, m, ss[i], es[i]))
    && (forall i :: 0 <= i < |ss| ==> Count(InFlight(w), ss[i].calls) <= k)
  }

  /** Budget overshoot: with at most `k` calls in flight, each recording at most `m` tokens, a tracker
      with budget B > 0 never holds more than B - 1 + k * m, in any interleaving; the global tracker,
      in addition, what calls recorded that pass no global gate. */
  lemma Overshoot(cfg: Config, es: seq<Event>, ss: seq<State>, w: Which, k: nat, m: nat, j: nat)
    requires IsRun(cfg, es, ss) && j < |ss| && BudgetAt(cfg, w) > 0 && Tame(w, k, m, es, ss)
    ensures TotalAt(w, ss[j]) <= BudgetAt(cfg, w) - 1 + k * m + UngatedAt(w, ss[j])
  {
    BoundAlongRun(cfg, es, ss, w, k, m, BudgetAt(cfg, w) - 1 + k * m, j);
    SumNonNegative(Weights(Claims(w, m), ss[j].calls));
  }

  // ---- which calls the global budget bounds ----

  ghost predicate OnlyKinds(allowed: iset<Kind>, es: seq<Event>) {
    forall i :: 0 <= i < |es| && es[i].Start? ==> es[i].kind in allowed
  }

  /** With calls of these kinds only, the global total stays within B - 1 + k * m. */
  ghost predicate GlobalBound(cfg: Config, allowed: iset<Kind>) {
    forall es: seq<Event>, ss: seq<State>, k: nat, m: nat ::
      IsRun(cfg, es, ss) && OnlyKinds(allowed, es) && Tame(Global, k, m, es, ss) ==>
        TotalAt(Global, ss[|es|]) <= cfg.tokenBudget - 1 + k * m
  }

  ghost predicate PlainCalls(s: State) {
    forall i :: 0 <= i < |s.calls| && s.calls[i].Running? ==> s.calls[i].kind.Plain?
  }

  /** Without other calls nothing is recorded past the gate. */
  lemma {:induction false} NothingUngated(cfg: Config, es: seq<Event>, ss: seq<State>, j: nat)
    requires IsRun(cfg, es, ss) && j < |ss| && forall i :: 0 <= i < |es| && es[i].Start? ==> es[i].kind.Plain?
    ensures Ungated(ss[j].lines) == 0 && PlainCalls(ss[j])
  {
    if j > 0 {
      NothingUngated(cfg, es, ss, j - 1);
      StepStaysGated(cfg, ss[j - 1], es[j - 1]);
    }
  }

  lemma StepStaysGated(cfg: Config, s: State, e: Event)
    requires Enabled(s, e) && (e.Start? ==> e.kind.Plain?) && Ungated(s.lines) == 0 && PlainCalls(s)
    ensures Ungated(Step(cfg, s, e).lines) == 0 && PlainCalls(Step(cfg, s, e))
  {
    if e.RecordGlobal? { UngatedAppend(s.lines, Line(s.calls[e.i].kind, e.entry)); }
  }

  lemma UngatedAppend(lines: seq<Line>, l: Line)
    ensures Ungated(lines + [l]) == Ungated(lines) + if l.kind.Plain? then 0 else Positive(Tokens(l.entry))
  {
    assert (lines + [l])[..|lines|] == lines;
  }

  /** A single call of another kind takes the global total to any height. */
  lemma UngatedExceedsAnything(cfg: Config, kind: Kind, height: nat) returns (es: seq<Event>, ss: seq<State>)
    requires !kind.Plain?
    ensures IsRun(cfg, es, ss) && OnlyKinds(iset{kind}, es) && Tame(Global, 0, 0, es, ss)
    ensures TotalAt(Global, ss[|es|]) == height
  {
    var entry := Entry("tool", "category", height, 0);
    var s0 := State([], map[], []);
    var s1 := Step(cfg, s0, Start(kind));
    assert s1.calls == [Running(kind)];
    var s2 := Step(cfg, s1, RecordGlobal(0, entry));
    es, ss := [Start(kind), RecordGlobal(0, entry)], [s0, s1, s2];
    assert s2.lines == [Line(kind, entry)] && |s2.calls| == 1;
    assert Entries(s2.lines) == [] + [entry];
    TotalAppend([], entry);
    forall i | 0 <= i < |ss| ensures Count(InFlight(Global), ss[i].calls) <= 0 {
      SumConstant(Weights(InFlight(Global), ss[i].calls), 0);
    }
  }

  /** The global budget bounds the global total exactly if every call passes its gate: scoped and
      unresolved calls record globally without looking at it. */
  lemma GlobalBoundExactlyForGatedCalls(cfg: Config, allowed: iset<Kind>)
    requires cfg.tokenBudget > 0
    ensures GlobalBound(cfg, allowed) <==> forall kind :: kind in allowed ==> kind.Plain?
  {
    if forall kind :: kind in allowed ==> kind.Plain? {
      forall es: seq<Event>, ss: seq<State>, k: nat, m: nat
        | IsRun(cfg, es, ss) && OnlyKinds(allowed, es) && Tame(Global, k, m, es, ss)
        ensures TotalAt(Global, ss[|es|]) <= cfg.tokenBudget - 1 + k * m
      {
        Overshoot(cfg, es, ss, Global, k, m, |es|);
        NothingUngated(cfg, es, ss, |es|);
      }
    } else {
      var kind :| kind in allowed && !kind.Plain?;
      var es, ss := UngatedExceedsAnything(cfg, kind, cfg.tokenBudget);
      assert OnlyKinds(allowed, es);
    }
  }

  // ---- conservation ----

  /** The global entries, each labelled with the scope it was recorded for. */
  function ByScope(lines: seq<Line>): (items: seq<(Option<Scope>, int)>)
    ensures |items| == |lines| && forall i :: 0 <= i < |lines| ==> items[i] == (ScopeOf(lines[i].kind), Tokens(lines[i].entry))
  {
    seq(|lines|, i requires 0 <= i < |lines| => (ScopeOf(lines[i].kind), Tokens(lines[i].entry)))
  }

  ghost predicate Balanced(s: State, scope: Scope) {
    Share(ByScope(s.lines), Some(scope)) == TotalOf(InScope(s.scoped, scope)) + Count(Owed(scope), s.calls)
  }

  lemma ShareAppend(lines: seq<Line>, l: Line, scope: Option<Scope>)
    ensures Share(ByScope(lines + [l]), scope) == Share(ByScope(lines), scope) + if ScopeOf(l.kind) == scope then Tokens(l.entry) else 0
  {
    assert ByScope(lines + [l])[..|lines|] == ByScope(lines);
  }

  lemma RecordGlobalKeepsBalance(cfg: Config, s: State, i: nat, entry: Entry, scope: Scope)
    requires Enabled(s, RecordGlobal(i, entry)) && Balanced(s, scope)
    ensures Balanced(Step(cfg, s, RecordGlobal(i, entry)), scope)
  {
    var s' := Step(cfg, s, RecordGlobal(i, entry));
    CountUpdate(Owed(scope), s.calls, i, s'.calls[i]);
    ShareAppend(s.lines, s'.lines[|s.lines|], Some(scope));
  }

  lemma RecordScopedKeepsBalance(cfg: Config, s: State, i: nat, scope: Scope)
    requires Enabled(s, RecordScoped(i)) && Balanced(s, scope)
    ensures Balanced(Step(cfg, s, RecordScoped(i)), scope)
  {
    CountUpdate(Owed(scope), s.calls, i, Finished);
    ScopedTotalAfter(cfg, s, i, scope);
  }

  lemma StepKeepsBalance(cfg: Config, s: State, e: Event, scope: Scope)
    requires Enabled(s, e) && Balanced(s, scope)
    ensures Balanced(Step(cfg, s, e), scope)
  {
    match e
    case Start(_) => CountAppend(Owed(scope), s.calls, Step(cfg, s, e).calls[|s.calls|]);
    case RecordGlobal(i, entry) => RecordGlobalKeepsBalance(cfg, s, i, entry, scope);
    case RecordScoped(i) => RecordScopedKeepsBalance(cfg, s, i, scope);
  }

  lemma {:induction false} BalanceAlongRun(cfg: Config, es: seq<Event>, ss: seq<State>, j: nat, scope: Scope)
    requires IsRun(cfg, es, ss) && j < |ss|
    ensures Balanced(ss[j], scope)
  {
    if j > 0 {
      BalanceAlongRun(cfg, es, ss, j - 1, scope);
      StepKeepsBalance(cfg, ss[j - 1], es[j - 1], scope);
    }
  }

  /** No call is between its two recordings. */
  ghost predicate Settled(s: State) {
    forall i :: 0 <= i < |s.calls| ==> !s.calls[i].HalfRecorded?
  }

  ghost function SumScopes(s: State, scopes: seq<Scope>): int {
    if scopes == [] then 0 else TotalOf(InScope(s.scoped, scopes[0])) + SumScopes(s, scopes[1..])
  }

  ghost function Tags(scopes: seq<Scope>): (tags: seq<Option<Scope>>)
    ensures |tags| == |scopes| && forall i :: 0 <= i < |scopes| ==> tags[i] == Some(scopes[i])
  {
    seq(|scopes|, i requires 0 <= i < |scopes| => Some(scopes[i]))
  }

  lemma {:induction false} ScopesAreShares(s: State, scopes: seq<Scope>)
    requires forall i :: 0 <= i < |scopes| ==> TotalOf(InScope(s.scoped, scopes[i])) == Share(ByScope(s.lines), Some(scopes[i]))
    ensures SumScopes(s, scopes) == SumShares(ByScope(s.lines), Tags(scopes))
  {
    if scopes != [] {
      ScopesAreShares(s, scopes[1..]);
      assert Tags(scopes)[1..] == Tags(scopes[1..]);
    }
  }

  lemma {:induction false} AmountOfLines(lines: seq<Line>)
    ensures Amount(ByScope(lines)) == TotalOf(Entries(lines))
  {
    if lines != [] {
      var n := |lines| - 1;
      AmountOfLines(lines[..n]);
      assert ByScope(lines)[..n] == ByScope(lines[..n]) && Entries(lines)[..n] == Entries(lines[..n]);
    }
  }

  /** Conservation: whenever no call is between its two recordings, each scope's tracker holds exactly what was recorded
      globally for that scope, and the global total is the unscoped share plus the scoped totals. */
  lemma Conservation(cfg: Config, es: seq<Event>, ss: seq<State>, j: nat, scopes: seq<Scope>)
    requires IsRun(cfg, es, ss) && j < |ss| && Settled(ss[j]) && Distinct(scopes)
    requires forall i :: 0 <= i < |ss[j].lines| && ScopeOf(ss[j].lines[i].kind).Some? ==> ScopeOf(ss[j].lines[i].kind).value in scopes
    ensures forall sc :: TotalOf(InScope(ss[j].scoped, sc)) == Share(ByScope(ss[j].lines), Some(sc))
    ensures TotalOf(Entries(ss[j].lines)) == Share(ByScope(ss[j].lines), None) + SumScopes(ss[j], scopes)
  {
    var s := ss[j];
    forall sc ensures TotalOf(InScope(s.scoped, sc)) == Share(ByScope(s.lines), Some(sc)) {
      BalanceAlongRun(cfg, es, ss, j, sc);
      SumConstant(Weights(Owed(sc), s.calls), 0);
    }
    ScopesAreShares(s, scopes);
    var tags := [None] + Tags(scopes);
    forall i | 0 <= i < |s.lines| ensures ByScope(s.lines)[i].0 in tags {
      var scope := ScopeOf(s.lines[i].kind);
      if scope.Some? {
        var k :| 0 <= k < |scopes| && scopes[k] == scope.value;
        assert tags[k + 1] == scope;
      }
    }
    SharesAddUp(ByScope(s.lines), tags);
    assert tags[1..] == Tags(scopes);
    AmountOfLines(s.lines);
  }

  /** The shared trackers, with one method per critical section of the two middlewares. */
  class Gate {
    const cfg: Config
    const global: Tracker
    var scoped: map<Scope, seq<Entry>>
    var calls: seq<Phase>
    ghost var lines: seq<Line>

    ghost predicate Valid()
      reads this, global
    {
      global.Valid() && global.entries == Entries(lines)
    }

    ghost function Contents(): State
      reads this
    {
      State(lines, scoped, calls)
    }

    constructor (cfg: Config)
      ensures this.cfg == cfg && Valid() && Init(Contents()) && fresh(global)
    {
      this.cfg := cfg;
      global := new Tracker();
      scoped, calls, lines := map[], [], [];
    }

    /** The budget check before the handler runs. */
    method Begin(kind: Kind) returns (admitted: bool)
      requires Valid()
      modifies this
      ensures Valid() && Contents() == Step(cfg, old(Contents()), Start(kind))
      ensures admitted == PassesGate(cfg, old(Contents()), kind)
      ensures kind.Plain? ==> (admitted <==> !(cfg.tokenBudget > 0 && global.totalTokens >= cfg.tokenBudget))
    {
      match kind {
        case Plain =>
          var used := global.Total();
          admitted := !(cfg.tokenBudget > 0 && used >= cfg.tokenBudget);
        case Scoped(None) =>
          admitted := true;
        case Scoped(Some(sc)) =>
          var used := TotalOf(if sc in scoped then scoped[sc] else []);
          admitted := !(sc in cfg.budgets && cfg.budgets[sc] > 0 && used >= cfg.budgets[sc]);
      }
      calls := calls + [if admitted then Running(kind) else Rejected];
    }

    method EndGlobal(i: nat, entry: Entry)
      requires Valid() && Enabled(Contents(), RecordGlobal(i, entry))
      modifies this, global
      ensures Valid() && Contents() == Step(cfg, old(Contents()), RecordGlobal(i, entry))
    {
      var scope := ScopeOf(calls[i].kind);
      EntriesAppend(lines, Line(calls[i].kind, entry));
      global.Record(entry);
      lines := lines + [Line(calls[i].kind, entry)];
      calls := calls[i := if scope.Some? then HalfRecorded(scope.value, entry) else Finished];
    }

    /** Recording in the scope; the answer says whether the scope is now over its budget. */
    method EndScoped(i: nat) returns (exceeded: bool)
      requires Valid() && Enabled(Contents(), RecordScoped(i))
      modifies this
      ensures Valid() && Contents() == Step(cfg, old(Contents()), RecordScoped(i))
      ensures var w := Of(old(calls)[i].scope);
              exceeded == (BudgetAt(cfg, w) > 0 && TotalAt(w, Contents()) > BudgetAt(cfg, w))
    {
      var sc := calls[i].scope;
      var all := (if sc in scoped then scoped[sc] else []) + [calls[i].entry];
      scoped, calls := scoped[sc := all], calls[i := Finished];
      exceeded := sc in cfg.budgets && cfg.budgets[sc] > 0 && TotalOf(all) > cfg.budgets[sc];
    }
  }
}

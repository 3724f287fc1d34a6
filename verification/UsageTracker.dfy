/** Token accounting: `Tracker` (`finops/tracker.go`). */
module UsageTracker {

  datatype Entry = Entry(tool: string, category: string, input: int, output: int)

  function Tokens(e: Entry): int { e.input + e.output }

  function TotalOf(entries: seq<Entry>): int {
    if entries == [] then 0 else TotalOf(entries[..|entries| - 1]) + Tokens(entries[|entries| - 1])
  }

  function InputOf(entries: seq<Entry>): int {
    if entries == [] then 0 else InputOf(entries[..|entries| - 1]) + entries[|entries| - 1].input
  }

  function OutputOf(entries: seq<Entry>): int {
    if entries == [] then 0 else OutputOf(entries[..|entries| - 1]) + entries[|entries| - 1].output
  }

  lemma {:induction false} SidesAddUp(entries: seq<Entry>)
    ensures InputOf(entries) + OutputOf(entries) == TotalOf(entries)
  {
    if entries != [] { SidesAddUp(entries[..|entries| - 1]); }
  }

  // ---- splitting a total by tag ----

  /** The share of one tag in a labelled list of amounts. */
  function Share<L(==)>(items: seq<(L, int)>, tag: L): int {
    if items == [] then 0
    else
      var last := items[|items| - 1];
      Share(items[..|items| - 1], tag) + if last.0 == tag then last.1 else 0
  }

  function Amount<L>(items: seq<(L, int)>): int {
    if items == [] then 0 else Amount(items[..|items| - 1]) + items[|items| - 1].1
  }

  function SumShares<L(==)>(items: seq<(L, int)>, tags: seq<L>): int {
    if tags == [] then 0 else Share(items, tags[0]) + SumShares(items, tags[1..])
  }

  ghost predicate Distinct<L>(tags: seq<L>) {
    forall i, j :: 0 <= i < j < |tags| ==> tags[i] != tags[j]
  }

  lemma {:induction false} NoItemsNoShares<L>(tags: seq<L>)
    ensures SumShares([], tags) == 0
  {
    if tags != [] { NoItemsNoShares(tags[1..]); }
  }

  /** One more item raises the sum of shares by its amount, through the one tag that is its own. */
  lemma {:induction false} OneMoreItem<L>(items: seq<(L, int)>, tag: L, amount: int, tags: seq<L>)
    requires Distinct(tags)
    ensures SumShares(items + [(tag, amount)], tags) ==
            SumShares(items, tags) + if tag in tags then amount else 0
  {
    if tags != [] {
      assert (items + [(tag, amount)])[..|items|] == items;
      assert tags == [tags[0]] + tags[1..];
      if tags[0] == tag {
        assert tag !in tags[1..];
      }
      OneMoreItem(items, tag, amount, tags[1..]);
    }
  }

  /** Over any enumeration of the tags that occur, the shares add up to the whole. */
  lemma {:induction false} SharesAddUp<L>(items: seq<(L, int)>, tags: seq<L>)
    requires Distinct(tags) && forall i :: 0 <= i < |items| ==> items[i].0 in tags
    ensures SumShares(items, tags) == Amount(items)
  {
    if items == [] {
      NoItemsNoShares(tags);
    } else {
      var n := |items| - 1;
      SharesAddUp(items[..n], tags);
      OneMoreItem(items[..n], items[n].0, items[n].1, tags);
      assert items == items[..n] + [(items[n].0, items[n].1)];
    }
  }

  // ---- summaries ----

  datatype Dimension = ByTool | ByCategory

  function LabelOf(d: Dimension, e: Entry): string {
    if d.ByTool? then e.tool else e.category
  }

  function Labelled(d: Dimension, entries: seq<Entry>): (items: seq<(string, int)>)
    ensures |items| == |entries|
    ensures forall i :: 0 <= i < |entries| ==> items[i] == (LabelOf(d, entries[i]), Tokens(entries[i]))
  {
    seq(|entries|, i requires 0 <= i < |entries| => (LabelOf(d, entries[i]), Tokens(entries[i])))
  }

  datatype Summary = Summary(
    input: int, output: int, invocations: nat, byTool: map<string, int>, byCategory: map<string, int>)

  function Occurring(d: Dimension, entries: seq<Entry>): set<string> {
    set e | e in entries :: LabelOf(d, e)
  }

  /** A breakdown has one line per label that occurs, holding that label's share. */
  ghost function Breakdown(d: Dimension, entries: seq<Entry>): map<string, int> {
    map l | l in Occurring(d, entries) :: Share(Labelled(d, entries), l)
  }

  ghost predicate Summarises(s: Summary, entries: seq<Entry>) {
    && s.input == InputOf(entries) && s.output == OutputOf(entries) && s.invocations == |entries|
    && IsBreakdown(s.byTool, ByTool, entries) && IsBreakdown(s.byCategory, ByCategory, entries)
  }

  ghost predicate IsBreakdown(m: map<string, int>, d: Dimension, entries: seq<Entry>) {
    m == Breakdown(d, entries)
  }

  function Bumped(m: map<string, int>, tag: string, tokens: int): map<string, int> {
    m[tag := (if tag in m then m[tag] else 0) + tokens]
  }

  lemma {:induction false} AbsentLabelHasNoShare(d: Dimension, entries: seq<Entry>, tag: string)
    requires tag !in Occurring(d, entries)
    ensures Share(Labelled(d, entries), tag) == 0
  {
    if entries != [] {
      var n := |entries| - 1;
      assert Occurring(d, entries) == Occurring(d, entries[..n]) + {LabelOf(d, entries[n])} by {
        assert entries == entries[..n] + [entries[n]];
      }
      AbsentLabelHasNoShare(d, entries[..n], tag);
      assert Labelled(d, entries)[..n] == Labelled(d, entries[..n]);
    }
  }

  lemma ShareAfter(d: Dimension, entries: seq<Entry>, e: Entry, tag: string)
    ensures Share(Labelled(d, entries + [e]), tag) ==
            Share(Labelled(d, entries), tag) + if LabelOf(d, e) == tag then Tokens(e) else 0
  {
    assert Labelled(d, entries + [e])[..|entries|] == Labelled(d, entries);
  }

  lemma BumpExtendsBreakdown(d: Dimension, entries: seq<Entry>, e: Entry)
    ensures Bumped(Breakdown(d, entries), LabelOf(d, e), Tokens(e)) == Breakdown(d, entries + [e])
  {
    var m, all := Bumped(Breakdown(d, entries), LabelOf(d, e), Tokens(e)), entries + [e];
    assert Occurring(d, all) == Occurring(d, entries) + {LabelOf(d, e)};
    forall l | l in m ensures m[l] == Share(Labelled(d, all), l) {
      ShareAfter(d, entries, e, l);
      if l !in Occurring(d, entries) { AbsentLabelHasNoShare(d, entries, l); }
    }
  }

  lemma TotalAppend(entries: seq<Entry>, e: Entry)
    ensures TotalOf(entries + [e]) == TotalOf(entries) + Tokens(e)
  {
    assert (entries + [e])[..|entries|] == entries;
  }

  function Extended(s: Summary, e: Entry): Summary {
    Summary(s.input + e.input, s.output + e.output, s.invocations + 1,
            Bumped(s.byTool, e.tool, e.input + e.output), Bumped(s.byCategory, e.category, e.input + e.output))
  }

  lemma ToolLinesExtend(s: Summary, entries: seq<Entry>, e: Entry)
    requires IsBreakdown(s.byTool, ByTool, entries)
    ensures IsBreakdown(Extended(s, e).byTool, ByTool, entries + [e])
  {
    LineExtends(s.byTool, ByTool, entries, e);
  }

  lemma CategoryLinesExtend(s: Summary, entries: seq<Entry>, e: Entry)
    requires IsBreakdown(s.byCategory, ByCategory, entries)
    ensures IsBreakdown(Extended(s, e).byCategory, ByCategory, entries + [e])
  {
    LineExtends(s.byCategory, ByCategory, entries, e);
  }

  lemma TotalsExtend(s: Summary, entries: seq<Entry>, e: Entry)
    requires s.input == InputOf(entries) && s.output == OutputOf(entries) && s.invocations == |entries|
    ensures Extended(s, e).input == InputOf(entries + [e]) && Extended(s, e).output == OutputOf(entries + [e])
    ensures Extended(s, e).invocations == |entries + [e]|
  {
    assert (entries + [e])[..|entries|] == entries;
  }

  lemma SummaryExtends(s: Summary, entries: seq<Entry>, e: Entry)
    requires Summarises(s, entries)
    ensures Summarises(Extended(s, e), entries + [e])
  {
    ToolLinesExtend(s, entries, e);
    CategoryLinesExtend(s, entries, e);
    TotalsExtend(s, entries, e);
  }

  /** What the loop over the entries has gathered. */
  function Accumulated(entries: seq<Entry>): Summary {
    if entries == [] then Summary(0, 0, 0, map[], map[])
    else Extended(Accumulated(entries[..|entries| - 1]), entries[|entries| - 1])
  }

  lemma {:induction false} AccumulatedSummarises(entries: seq<Entry>)
    ensures Summarises(Accumulated(entries), entries)
  {
    if entries != [] {
      var init, last := entries[..|entries| - 1], entries[|entries| - 1];
      assert entries == init + [last];
      AccumulatedSummarises(init);
      SummaryExtends(Accumulated(init), init, last);
    }
  }

  lemma LineExtends(m: map<string, int>, d: Dimension, entries: seq<Entry>, e: Entry)
    requires IsBreakdown(m, d, entries)
    ensures IsBreakdown(Bumped(m, LabelOf(d, e), e.input + e.output), d, entries + [e])
  {
    BumpExtendsBreakdown(d, entries, e);
  }

  ghost function SumLines(m: map<string, int>, tags: seq<string>): int
    requires forall i :: 0 <= i < |tags| ==> tags[i] in m
  {
    if tags == [] then 0 else m[tags[0]] + SumLines(m, tags[1..])
  }

  lemma {:induction false} LinesAreShares(d: Dimension, entries: seq<Entry>, tags: seq<string>)
    requires forall i :: 0 <= i < |tags| ==> tags[i] in Breakdown(d, entries)
    ensures SumLines(Breakdown(d, entries), tags) == SumShares(Labelled(d, entries), tags)
  {
    if tags != [] { LinesAreShares(d, entries, tags[1..]); }
  }

  lemma {:induction false} AmountIsTotal(d: Dimension, entries: seq<Entry>)
    ensures Amount(Labelled(d, entries)) == TotalOf(entries)
  {
    if entries != [] {
      var n := |entries| - 1;
      AmountIsTotal(d, entries[..n]);
      assert Labelled(d, entries)[..n] == Labelled(d, entries[..n]);
    }
  }

  /** The per-tool lines of a summary, and likewise the per-category lines, add up to the total. */
  lemma BreakdownAddsUp(s: Summary, entries: seq<Entry>, tools: seq<string>, categories: seq<string>)
    requires Summarises(s, entries) && Distinct(tools) && Distinct(categories)
    requires (forall l :: l in tools <==> l in s.byTool) && (forall l :: l in categories <==> l in s.byCategory)
    ensures SumLines(s.byTool, tools) == SumLines(s.byCategory, categories) == s.input + s.output == TotalOf(entries)
  {
    LinesAddUp(ByTool, entries, tools);
    LinesAddUp(ByCategory, entries, categories);
    SidesAddUp(entries);
  }

  /** The tokens of the entries of one tool. */
  function OfTool(entries: seq<Entry>, tool: string): int {
    if entries == [] then 0
    else
      var e := entries[|entries| - 1];
      OfTool(entries[..|entries| - 1], tool) + if e.tool == tool then e.input + e.output else 0
  }

  /** The tokens of the entries of one category. */
  function OfCategory(entries: seq<Entry>, category: string): int {
    if entries == [] then 0
    else
      var e := entries[|entries| - 1];
      OfCategory(entries[..|entries| - 1], category) + if e.category == category then e.input + e.output else 0
  }

  lemma {:induction false} SharesByName(entries: seq<Entry>, name: string)
    ensures Share(Labelled(ByTool, entries), name) == OfTool(entries, name)
    ensures Share(Labelled(ByCategory, entries), name) == OfCategory(entries, name)
  {
    if entries != [] {
      var n := |entries| - 1;
      SharesByName(entries[..n], name);
      assert Labelled(ByTool, entries)[..n] == Labelled(ByTool, entries[..n]);
      assert Labelled(ByCategory, entries)[..n] == Labelled(ByCategory, entries[..n]);
    }
  }

  /** A summary has a line for exactly the tools and categories that were used, and each line holds the
      tokens of its own entries. */
  lemma LinesByName(s: Summary, entries: seq<Entry>, name: string)
    requires Summarises(s, entries)
    ensures name in s.byTool <==> exists e :: e in entries && e.tool == name
    ensures name in s.byCategory <==> exists e :: e in entries && e.category == name
    ensures name in s.byTool ==> s.byTool[name] == OfTool(entries, name)
    ensures name in s.byCategory ==> s.byCategory[name] == OfCategory(entries, name)
  {
    SharesByName(entries, name);
  }

  lemma LinesAddUp(d: Dimension, entries: seq<Entry>, tags: seq<string>)
    requires Distinct(tags) && forall l :: l in tags <==> l in Breakdown(d, entries)
    ensures SumLines(Breakdown(d, entries), tags) == TotalOf(entries)
  {
    LinesAreShares(d, entries, tags);
    AmountIsTotal(d, entries);
    forall i | 0 <= i < |entries| ensures Labelled(d, entries)[i].0 in tags {
      assert entries[i] in entries;
    }
    SharesAddUp(Labelled(d, entries), tags);
  }

  /** `Tracker`. */
  class Tracker {
    var entries: seq<Entry>
    var totalTokens: int

    ghost predicate Valid()
      reads this
    {
      totalTokens == TotalOf(entries)
    }

    constructor ()
      ensures Valid() && entries == []
    {
      entries, totalTokens := [], 0;
    }

    method Record(e: Entry)
      requires Valid()
      modifies this
      ensures Valid() && entries == old(entries) + [e]
    {
      entries := entries + [e];
      totalTokens := totalTokens + (e.input + e.output);
      assert entries[..|entries| - 1] == old(entries);
    }

    method Total() returns (t: int)
      requires Valid()
      ensures t == TotalOf(entries)
    {
      t := totalTokens;
    }

    method Summarise() returns (s: Summary)
      requires Valid()
      ensures Summarises(s, entries) && s.input + s.output == totalTokens
    {
      s := Summary(0, 0, 0, map[], map[]);
      for i := 0 to |entries|
        invariant s == Accumulated(entries[..i])
      {
        assert entries[..i + 1][..i] == entries[..i];
        s := Extended(s, entries[i]);
      }
      assert entries[..|entries|] == entries;
      AccumulatedSummarises(entries);
      SidesAddUp(entries);
    }

    method Reset()
      modifies this
      ensures Valid() && entries == []
    {
      entries, totalTokens := [], 0;
    }
  }
}

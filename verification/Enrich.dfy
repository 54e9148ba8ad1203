/** Filling in what a model list shows beside each model: endpoints, groups, billing kinds
    and bound channels. Exact models read caches; rule models collect over all prices that
    their rule matches. The code batches; the specification looks at one model at a time.
    The order in which the code walks a set is left open. */
module Enrich {

  import opened Basics

  datatype Rule = Exact | Prefix | Contains | Suffix | Unknown

  datatype Pricing = Pricing(name: string, endpoints: seq<string>, groups: seq<string>, quotaType: int)

  datatype BoundChannel = BoundChannel(name: string, kind: int)

  /** `endpoints` is None while the column is empty. */
  datatype Model = Model(name: string, rule: Rule, endpoints: Option<set<string>>, channels: seq<BoundChannel>,
                         groups: seq<string>, quotaTypes: seq<int>, matched: seq<string>, matchedCount: nat)

  /** What the database and the caches hold per model name. */
  datatype Source = Source(
    bound: string -> seq<BoundChannel>, endpoints: string -> set<string>,
    groups: string -> seq<string>, quotaTypes: string -> seq<int>)

  predicate OccursAt(part: string, whole: string, i: int) {
    0 <= i <= |whole| - |part| && whole[i..i + |part|] == part
  }

  predicate Occurs(part: string, whole: string) {
    exists i :: 0 <= i <= |whole| && OccursAt(part, whole, i)
  }

  predicate Matches(m: Model, name: string) {
    match m.rule
    case Prefix => m.name <= name
    case Suffix => |m.name| <= |name| && name[|name| - |m.name|..] == m.name
    case Contains => Occurs(m.name, name)
    case _ => false
  }

  // ---- Distinct lists ----

  function AddDistinct<T(==)>(s: seq<T>, x: T): seq<T> {
    if x in s then s else s + [x]
  }

  ghost predicate Ascending(s: seq<int>) {
    forall i, j :: 0 <= i < j < |s| ==> s[i] < s[j]
  }

  /** Lists the elements of a set, in any order. */
  method List(items: set<string>) returns (list: seq<string>)
    ensures Distinct(list) && forall x :: x in list <==> x in items
  {
    list := [];
    var rest := items;
    while rest != {}
      invariant rest <= items && Distinct(list)
      invariant forall x :: x in list <==> x in items && x !in rest
      decreases rest
    {
      var x :| x in rest;
      rest := rest - {x};
      list := list + [x];
    }
  }

  method SortDistinct(items: seq<int>) returns (sorted: seq<int>)
    requires Distinct(items)
    ensures Ascending(sorted) && forall x :: x in sorted <==> x in items
  {
    sorted := [];
    for i := 0 to |items|
      invariant Ascending(sorted)
      invariant forall x :: x in sorted <==> x in items[..i]
    {
      assert items[i] !in items[..i];
      sorted := Insert(sorted, items[i]);
      assert items[..i + 1] == items[..i] + [items[i]];
    }
    assert items[..|items|] == items;
  }

  method Insert(sorted: seq<int>, x: int) returns (r: seq<int>)
    requires Ascending(sorted) && x !in sorted
    ensures Ascending(r) && forall y :: y in r <==> y == x || y in sorted
  {
    var k := 0;
    while k < |sorted| && sorted[k] < x
      invariant 0 <= k <= |sorted|
      invariant forall j :: 0 <= j < k ==> sorted[j] < x
    {
      k := k + 1;
    }
    r := PutAt(sorted, x, k);
    PutAscending(sorted, x, k);
    forall y {
      PutMembers(sorted, x, k, y);
    }
  }

  function PutAt(sorted: seq<int>, x: int, k: nat): (r: seq<int>)
    requires k <= |sorted|
    ensures |r| == |sorted| + 1
    ensures forall j :: 0 <= j < |r| ==> r[j] == if j < k then sorted[j] else if j == k then x else sorted[j - 1]
  {
    sorted[..k] + [x] + sorted[k..]
  }

  lemma PutAscending(sorted: seq<int>, x: int, k: nat)
    requires Ascending(sorted) && k <= |sorted|
    requires (forall j :: 0 <= j < k ==> sorted[j] < x) && (forall j :: k <= j < |sorted| ==> x < sorted[j])
    ensures Ascending(PutAt(sorted, x, k))
  {
  }

  lemma PutMembers(sorted: seq<int>, x: int, k: nat, y: int)
    requires k <= |sorted|
    ensures y in PutAt(sorted, x, k) <==> y == x || y in sorted
  {
    var r := PutAt(sorted, x, k);
    assert r[k] == x;
    if y in sorted {
      var j :| 0 <= j < |sorted| && sorted[j] == y;
      assert r[if j < k then j else j + 1] == y;
    }
    if y in r && y != x {
      var j :| 0 <= j < |r| && r[j] == y;
      assert sorted[if j < k then j else j - 1] == y;
    }
  }

  // ---- What one rule model collects ----

  datatype Gathered = Gathered(names: seq<string>, endpoints: set<string>, groups: set<string>, quotaTypes: seq<int>)

  const NOTHING := Gathered([], {}, {}, [])

  function Elements(s: seq<string>): set<string> { set x | x in s }

  function AddPricing(g: Gathered, p: Pricing): Gathered {
    Gathered(g.names + [p.name], g.endpoints + Elements(p.endpoints), g.groups + Elements(p.groups),
             AddDistinct(g.quotaTypes, p.quotaType))
  }

  /** The naive definition: look at every price, keep what matches, in order. */
  function Gather(m: Model, pricings: seq<Pricing>): Gathered {
    if pricings == [] then NOTHING
    else
      var init, last := Gather(m, pricings[..|pricings| - 1]), pricings[|pricings| - 1];
      if Matches(m, last.name) then AddPricing(init, last) else init
  }

  ghost predicate MatchedAt(m: Model, pricings: seq<Pricing>, i: int) {
    0 <= i < |pricings| && Matches(m, pricings[i].name)
  }

  /** Said without the fold: names are the matching ones in order, the rest are unions. */
  lemma {:induction false} GatherMeaning(m: Model, pricings: seq<Pricing>)
    ensures
      var g := Gather(m, pricings);
      && (forall x :: x in g.names <==> exists i :: MatchedAt(m, pricings, i) && pricings[i].name == x)
      && (forall x :: x in g.endpoints <==> exists i :: MatchedAt(m, pricings, i) && x in pricings[i].endpoints)
      && (forall x :: x in g.groups <==> exists i :: MatchedAt(m, pricings, i) && x in pricings[i].groups)
      && (forall x :: x in g.quotaTypes <==> exists i :: MatchedAt(m, pricings, i) && pricings[i].quotaType == x)
      && Distinct(g.quotaTypes)
  {
    if pricings != [] {
      var n := |pricings| - 1;
      var init := pricings[..n];
      GatherMeaning(m, init);
      assert forall i :: MatchedAt(m, init, i) <==> MatchedAt(m, pricings, i) && i < n;
      assert forall i :: 0 <= i < n ==> init[i] == pricings[i];
    }
  }

  /** The names come in price order: `at` lists the matching positions, ascending. */
  lemma {:induction false} NamesInOrder(m: Model, pricings: seq<Pricing>) returns (at: seq<int>)
    ensures Ascending(at) && |at| == |Gather(m, pricings).names|
    ensures forall k :: 0 <= k < |at| ==>
              MatchedAt(m, pricings, at[k]) && Gather(m, pricings).names[k] == pricings[at[k]].name
    ensures forall i :: MatchedAt(m, pricings, i) ==> i in at
  {
    at := [];
    if pricings != [] {
      var n := |pricings| - 1;
      var init := pricings[..n];
      at := NamesInOrder(m, init);
      assert forall i :: MatchedAt(m, init, i) <==> MatchedAt(m, pricings, i) && i < n;
      if Matches(m, pricings[n].name) {
        at := at + [n];
      }
    }
  }

  // ---- Channels are told apart by name and type ----

  function Digits(n: nat): (s: string)
    ensures s != ""
    ensures forall c :: c in s ==> '0' <= c <= '9'
  {
    if n < 10 then ['0' + n as char] else Digits(n / 10) + ['0' + (n % 10) as char]
  }

  function Decimal(n: int): string {
    if n < 0 then "-" + Digits(-n) else Digits(n)
  }

  function Key(c: BoundChannel): string {
    c.name + "_" + Decimal(c.kind)
  }

  lemma {:induction false} DigitsInjective(a: nat, b: nat)
    requires Digits(a) == Digits(b)
    ensures a == b
  {
    var x, y := Digits(a), Digits(b);
    assert x[|x| - 1] == '0' + (a % 10) as char && y[|y| - 1] == '0' + (b % 10) as char;
    if a >= 10 && b >= 10 {
      assert x[..|x| - 1] == Digits(a / 10) && y[..|y| - 1] == Digits(b / 10);
      DigitsInjective(a / 10, b / 10);
    }
  }

  lemma SignShown(n: int)
    ensures Decimal(n) != "" && (Decimal(n)[0] == '-' <==> n < 0) && '_' !in Decimal(n)
  {
    if n >= 0 {
      assert Decimal(n)[0] in Digits(n);
    }
  }

  lemma DecimalInjective(a: int, b: int)
    requires Decimal(a) == Decimal(b)
    ensures a == b
  {
    SignShown(a);
    SignShown(b);
    if a < 0 {
      assert Decimal(a)[1..] == Digits(-a) && Decimal(b)[1..] == Digits(-b);
      DigitsInjective(-a, -b);
    } else {
      DigitsInjective(a, b);
    }
  }

  lemma LastSeparator(a: string, x: string, b: string, y: string)
    requires a + "_" + x == b + "_" + y && '_' !in x
    ensures |a| >= |b|
  {
    var s := a + "_" + x;
    assert s[|b|] == (b + "_" + y)[|b|] == '_';
  }

  /** The key of a channel determines it, even when names contain the separator. */
  lemma KeyInjective(a: BoundChannel, b: BoundChannel)
    requires Key(a) == Key(b)
    ensures a == b
  {
    var x, y := Decimal(a.kind), Decimal(b.kind);
    SignShown(a.kind);
    SignShown(b.kind);
    LastSeparator(a.name, x, b.name, y);
    LastSeparator(b.name, y, a.name, x);
    assert Key(a)[..|a.name|] == a.name && Key(b)[..|b.name|] == b.name;
    assert Key(a)[|a.name| + 1..] == x && Key(b)[|b.name| + 1..] == y;
    DecimalInjective(a.kind, b.kind);
  }

  ghost predicate BoundToAny(source: Source, names: seq<string>, c: BoundChannel) {
    exists i :: 0 <= i < |names| && c in source.bound(names[i])
  }

  type ChannelSet = map<string, BoundChannel>

  ghost predicate Keyed(cs: ChannelSet) {
    forall k :: k in cs ==> Key(cs[k]) == k
  }

  predicate Holds(cs: ChannelSet, c: BoundChannel) {
    Key(c) in cs && cs[Key(c)] == c
  }

  lemma HoldsAfterPut(cs: ChannelSet, x: BoundChannel, c: BoundChannel)
    ensures Holds(cs[Key(x) := x], c) <==> Holds(cs, c) || c == x
  {
    if Key(c) == Key(x) {
      KeyInjective(c, x);
    }
  }

  lemma HoldsNext(cs: ChannelSet, next: ChannelSet, channels: seq<BoundChannel>, j: nat, c: BoundChannel)
    requires j < |channels| && (Holds(next, c) <==> Holds(cs, c) || c in channels[..j])
    ensures Holds(next[Key(channels[j]) := channels[j]], c) <==> Holds(cs, c) || c in channels[..j + 1]
  {
    HoldsAfterPut(next, channels[j], c);
    assert channels[..j + 1] == channels[..j] + [channels[j]];
  }

  method AddChannels(cs: ChannelSet, channels: seq<BoundChannel>) returns (next: ChannelSet)
    requires Keyed(cs)
    ensures Keyed(next) && forall c :: Holds(next, c) <==> Holds(cs, c) || c in channels
  {
    next := cs;
    for j := 0 to |channels|
      invariant Keyed(next)
      invariant forall c :: Holds(next, c) <==> Holds(cs, c) || c in channels[..j]
    {
      forall c {
        HoldsNext(cs, next, channels, j, c);
      }
      next := next[Key(channels[j]) := channels[j]];
    }
    assert channels[..|channels|] == channels;
  }

  /** Looking up each key of a channel set lists its channels. */
  lemma ListedChannels(cs: ChannelSet, keys: seq<string>, list: seq<BoundChannel>, c: BoundChannel)
    requires Keyed(cs) && (forall k :: k in keys <==> k in cs) && |list| == |keys|
    requires forall j :: 0 <= j < |keys| ==> keys[j] in cs && list[j] == cs[keys[j]]
    ensures c in list <==> Holds(cs, c)
  {
    if Holds(cs, c) {
      var i :| 0 <= i < |keys| && keys[i] == Key(c);
      assert list[i] == c;
    }
    if c in list {
      var i :| 0 <= i < |list| && list[i] == c;
      assert Key(c) == keys[i];
    }
  }

  lemma ListedOnce(cs: ChannelSet, keys: seq<string>, list: seq<BoundChannel>)
    requires Keyed(cs) && Distinct(keys) && |list| == |keys|
    requires forall j :: 0 <= j < |keys| ==> keys[j] in cs && list[j] == cs[keys[j]]
    ensures Distinct(list)
  {
    assert forall j :: 0 <= j < |keys| ==> Key(list[j]) == keys[j];
  }

  method LookUpAll(cs: ChannelSet, keys: seq<string>) returns (list: seq<BoundChannel>)
    requires forall j :: 0 <= j < |keys| ==> keys[j] in cs
    ensures |list| == |keys| && forall j :: 0 <= j < |keys| ==> list[j] == cs[keys[j]]
  {
    list := [];
    for i := 0 to |keys|
      invariant |list| == i && forall j :: 0 <= j < i ==> list[j] == cs[keys[j]]
    {
      list := list + [cs[keys[i]]];
    }
  }

  method ListChannels(cs: ChannelSet) returns (list: seq<BoundChannel>)
    requires Keyed(cs)
    ensures Distinct(list) && forall c :: c in list <==> Holds(cs, c)
  {
    var keys := List(cs.Keys);
    assert forall j :: 0 <= j < |keys| ==> keys[j] in cs;
    list := LookUpAll(cs, keys);
    ListedOnce(cs, keys, list);
    forall c {
      ListedChannels(cs, keys, list, c);
    }
  }

  /** The channels of a list of names, each once; `byName` is the batched look-up. */
  method UnionOfChannels(source: Source, names: seq<string>, byName: map<string, seq<BoundChannel>>)
    returns (list: seq<BoundChannel>)
    requires forall i :: 0 <= i < |names| ==> names[i] in byName && byName[names[i]] == source.bound(names[i])
    ensures Distinct(list) && forall c :: c in list <==> BoundToAny(source, names, c)
  {
    var cs: ChannelSet := map[];
    for i := 0 to |names|
      invariant Keyed(cs) && forall c :: Holds(cs, c) <==> BoundToAny(source, names[..i], c)
    {
      cs := AddChannels(cs, byName[names[i]]);
      forall c
        ensures Holds(cs, c) <==> BoundToAny(source, names[..i + 1], c)
      {
        BoundNext(source, names, i, c);
      }
    }
    assert names[..|names|] == names;
    list := ListChannels(cs);
  }

  lemma BoundNext(source: Source, names: seq<string>, i: nat, c: BoundChannel)
    requires i < |names|
    ensures BoundToAny(source, names[..i + 1], c) <==> BoundToAny(source, names[..i], c) || c in source.bound(names[i])
  {
    var next, before := names[..i + 1], names[..i];
    assert next[i] == names[i] && forall j :: 0 <= j < i ==> next[j] == before[j];
  }

  // ---- The batched code ----

  ghost predicate IsExact(m: Option<Model>) { m.Some? && m.value.rule == Exact }
  ghost predicate IsRule(m: Option<Model>) { m.Some? && m.value.rule != Exact }

  ghost predicate ExactIndices(ms: seq<Option<Model>>, exact: seq<int>, n: int)
    requires 0 <= n <= |ms|
  {
    && Ascending(exact)
    && (forall k :: 0 <= k < |exact| ==> 0 <= exact[k] < n && IsExact(ms[exact[k]]))
    && (forall i :: 0 <= i < n && IsExact(ms[i]) ==> i in exact)
  }

  ghost predicate RuleIndices(ms: seq<Option<Model>>, rules: seq<int>, n: int)
    requires 0 <= n <= |ms|
  {
    && Ascending(rules)
    && (forall k :: 0 <= k < |rules| ==> 0 <= rules[k] < n && IsRule(ms[rules[k]]))
    && (forall i :: 0 <= i < n && IsRule(ms[i]) ==> i in rules)
  }

  method SplitByRule(ms: seq<Option<Model>>) returns (exact: seq<int>, rules: seq<int>)
    ensures ExactIndices(ms, exact, |ms|) && RuleIndices(ms, rules, |ms|)
  {
    exact, rules := [], [];
    for k := 0 to |ms|
      invariant ExactIndices(ms, exact, k) && RuleIndices(ms, rules, k)
    {
      if ms[k].None? {
        continue;
      }
      if ms[k].value.rule == Exact {
        exact := exact + [k];
      } else {
        rules := rules + [k];
      }
    }
  }

  /** Every gathered entry belongs to one rule model and has met the first `n` prices. */
  ghost predicate GatheredSoFar(g: map<int, Gathered>, m: Model, idx: int, pricings: seq<Pricing>) {
    var expected := Gather(m, pricings);
    && (idx in g <==> expected.names != [])
    && (idx in g ==> g[idx] == expected)
  }

  lemma {:induction false} GatherNothing(m: Model, pricings: seq<Pricing>)
    ensures Gather(m, pricings).names == [] ==> Gather(m, pricings) == NOTHING
  {
    if pricings != [] {
      GatherNothing(m, pricings[..|pricings| - 1]);
    }
  }

  /** One price met by one rule model. */
  function MatchOne(g: map<int, Gathered>, m: Model, idx: int, p: Pricing): map<int, Gathered> {
    if !Matches(m, p.name) then g
    else
      var current := if idx in g then g[idx] else NOTHING;
      g[idx := AddPricing(current, p)]
  }

  lemma MatchedOne(g: map<int, Gathered>, m: Model, idx: int, done: seq<Pricing>, p: Pricing)
    requires GatheredSoFar(g, m, idx, done)
    ensures GatheredSoFar(MatchOne(g, m, idx, p), m, idx, done + [p])
  {
    assert (done + [p])[..|done|] == done;
    GatherNothing(m, done);
  }

  /** It leaves what other models gathered as it was. */
  lemma OthersUnmatched(g: map<int, Gathered>, m: Model, idx: int, p: Pricing, m': Model, idx': int, done: seq<Pricing>)
    requires idx' != idx
    ensures GatheredSoFar(MatchOne(g, m, idx, p), m', idx', done) <==> GatheredSoFar(g, m', idx', done)
  {
  }

  method MatchPricing(ms: seq<Option<Model>>, rules: seq<int>, before: map<int, Gathered>, done: seq<Pricing>,
                      p: Pricing)
    returns (g: map<int, Gathered>)
    requires RuleIndices(ms, rules, |ms|)
    requires forall k :: 0 <= k < |rules| ==> GatheredSoFar(before, ms[rules[k]].value, rules[k], done)
    ensures forall k :: 0 <= k < |rules| ==> GatheredSoFar(g, ms[rules[k]].value, rules[k], done + [p])
  {
    g := before;
    for j := 0 to |rules|
      invariant forall k :: 0 <= k < j ==> GatheredSoFar(g, ms[rules[k]].value, rules[k], done + [p])
      invariant forall k :: j <= k < |rules| ==> GatheredSoFar(g, ms[rules[k]].value, rules[k], done)
    {
      var idx := rules[j];
      var mm := ms[idx].value;
      MatchedOne(g, mm, idx, done, p);
      forall k | 0 <= k < |rules| && k != j
        ensures GatheredSoFar(MatchOne(g, mm, idx, p), ms[rules[k]].value, rules[k], if k < j then done + [p] else done)
      {
        assert rules[k] != idx;
        OthersUnmatched(g, mm, idx, p, ms[rules[k]].value, rules[k], if k < j then done + [p] else done);
      }
      g := MatchOne(g, mm, idx, p);
    }
  }

  method GatherAll(ms: seq<Option<Model>>, rules: seq<int>, pricings: seq<Pricing>) returns (g: map<int, Gathered>)
    requires RuleIndices(ms, rules, |ms|)
    ensures forall k :: 0 <= k < |rules| ==> GatheredSoFar(g, ms[rules[k]].value, rules[k], pricings)
  {
    g := map[];
    assert pricings[..0] == [];
    for n := 0 to |pricings|
      invariant forall k :: 0 <= k < |rules| ==> GatheredSoFar(g, ms[rules[k]].value, rules[k], pricings[..n])
    {
      g := MatchPricing(ms, rules, g, pricings[..n], pricings[n]);
      assert pricings[..n] + [pricings[n]] == pricings[..n + 1];
    }
    assert pricings[..|pricings|] == pricings;
  }

  /** One look-up for all names that any rule matched. */
  method LookUpMatched(source: Source, g: map<int, Gathered>, rules: seq<int>)
    returns (byName: map<string, seq<BoundChannel>>)
    ensures forall n :: n in byName ==> byName[n] == source.bound(n)
    ensures forall k, n :: 0 <= k < |rules| && rules[k] in g && n in g[rules[k]].names ==> n in byName
  {
    var all: set<string> := {};
    for j := 0 to |rules|
      invariant forall k, n :: 0 <= k < j && rules[k] in g && n in g[rules[k]].names ==> n in all
    {
      if rules[j] in g {
        all := all + Elements(g[rules[j]].names);
      }
    }
    byName := map n | n in all :: source.bound(n);
  }

  /** A rule model after the naive look at all prices. */
  ghost predicate RuleEnriched(source: Source, m: Model, m': Model, g: Gathered) {
    && m'.name == m.name && m'.rule == m.rule
    && m'.matched == g.names && m'.matchedCount == |g.names|
    && m'.endpoints == (if m.endpoints.None? && g.names != [] then Some(g.endpoints) else m.endpoints)
    && (if g.names == [] then m'.groups == m.groups && m'.quotaTypes == m.quotaTypes
        else && Distinct(m'.groups) && (forall x :: x in m'.groups <==> x in g.groups)
             && Ascending(m'.quotaTypes) && (forall x :: x in m'.quotaTypes <==> x in g.quotaTypes))
    && (if forall c :: !BoundToAny(source, g.names, c) then m'.channels == m.channels
        else Distinct(m'.channels) && forall c :: c in m'.channels <==> BoundToAny(source, g.names, c))
  }

  method FillRule(source: Source, m: Model, g: Gathered, found: bool, byName: map<string, seq<BoundChannel>>)
    returns (m': Model)
    requires found <==> g.names != []
    requires Distinct(g.quotaTypes)
    requires forall n :: n in g.names ==> n in byName && byName[n] == source.bound(n)
    ensures RuleEnriched(source, m, m', g)
  {
    m' := m;
    if found && m.endpoints.None? {
      m' := m'.(endpoints := Some(g.endpoints));
    }
    if found {
      var groups := List(g.groups);
      m' := m'.(groups := groups);
      var quotaTypes := SortDistinct(g.quotaTypes);
      m' := m'.(quotaTypes := quotaTypes);
    }
    var channels := UnionOfChannels(source, g.names, byName);
    if |channels| > 0 {
      assert BoundToAny(source, g.names, channels[0]);
      m' := m'.(channels := channels);
    }
    m' := m'.(matched := g.names, matchedCount := |g.names|);
  }

  /** An exact model after reading the caches. */
  function ExactEnriched(source: Source, m: Model): Model {
    m.(endpoints := if m.endpoints.None? then Some(source.endpoints(m.name)) else m.endpoints,
       channels := source.bound(m.name), groups := source.groups(m.name), quotaTypes := source.quotaTypes(m.name))
  }

  ghost predicate Enriched(source: Source, before: Option<Model>, after: Option<Model>, pricings: seq<Pricing>) {
    match before
    case None => after.None?
    case Some(m) =>
      after.Some? &&
      if m.rule == Exact then after.value == ExactEnriched(source, m)
      else RuleEnriched(source, m, after.value, Gather(m, pricings))
  }

  /** Every model of the list, filled in place, is what the naive definition makes of it
      alone: batching changes nothing, and models with different rules do not mix. */
  method EnrichModels(source: Source, models: array<Option<Model>>, pricings: seq<Pricing>)
    modifies models
    ensures forall i :: 0 <= i < models.Length ==> Enriched(source, old(models[i]), models[i], pricings)
  {
    var ms := models[..];
    var exact, rules := SplitByRule(ms);
    FillExact(source, models, ms, exact);
    forall i | 0 <= i < |ms| && !IsRule(ms[i])
      ensures Enriched(source, ms[i], models[i], pricings)
    {
    }
    if |rules| == 0 {
      return;
    }
    FillRules(source, models, ms, rules, pricings);
  }

  method FillExact(source: Source, models: array<Option<Model>>, ms: seq<Option<Model>>, exact: seq<int>)
    requires ms == models[..] && ExactIndices(ms, exact, |ms|)
    modifies models
    ensures forall i :: 0 <= i < |ms| ==>
              models[i] == if IsExact(ms[i]) then Some(ExactEnriched(source, ms[i].value)) else ms[i]
  {
    var names: set<string> := {};
    for k := 0 to |exact|
      invariant forall j :: 0 <= j < k ==> ms[exact[j]].value.name in names
    {
      names := names + {ms[exact[k]].value.name};
    }
    var channelsByModel := map n | n in names :: source.bound(n);
    for k := 0 to |exact|
      invariant forall j :: 0 <= j < k ==> models[exact[j]] == Some(ExactEnriched(source, ms[exact[j]].value))
      invariant forall j :: k <= j < |exact| ==> models[exact[j]] == ms[exact[j]]
      invariant forall i :: 0 <= i < |ms| && !IsExact(ms[i]) ==> models[i] == ms[i]
    {
      var idx := exact[k];
      var mm := models[idx].value;
      if mm.endpoints.None? {
        mm := mm.(endpoints := Some(source.endpoints(mm.name)));
      }
      mm := mm.(channels := channelsByModel[mm.name], groups := source.groups(mm.name),
                quotaTypes := source.quotaTypes(mm.name));
      models[idx] := Some(mm);
    }
  }

  method FillRules(source: Source, models: array<Option<Model>>, ms: seq<Option<Model>>, rules: seq<int>,
                   pricings: seq<Pricing>)
    requires |ms| == models.Length && RuleIndices(ms, rules, |ms|)
    requires forall i :: 0 <= i < |ms| && IsRule(ms[i]) ==> models[i] == ms[i]
    requires forall i :: 0 <= i < |ms| && !IsRule(ms[i]) ==> Enriched(source, ms[i], models[i], pricings)
    modifies models
    ensures forall i :: 0 <= i < |ms| ==> Enriched(source, ms[i], models[i], pricings)
  {
    var g := GatherAll(ms, rules, pricings);
    var byName := LookUpMatched(source, g, rules);
    for k := 0 to |rules|
      invariant forall i :: 0 <= i < |ms| && !IsRule(ms[i]) ==> Enriched(source, ms[i], models[i], pricings)
      invariant forall j :: 0 <= j < k ==> Enriched(source, ms[rules[j]], models[rules[j]], pricings)
      invariant forall j :: k <= j < |rules| ==> models[rules[j]] == ms[rules[j]]
    {
      var idx := rules[k];
      var mm := models[idx].value;
      assert GatheredSoFar(g, ms[rules[k]].value, rules[k], pricings);
      GatherNothing(mm, pricings);
      GatherMeaning(mm, pricings);
      var filled := FillRule(source, mm, if idx in g then g[idx] else NOTHING, idx in g, byName);
      models[idx] := Some(filled);
    }
  }
}

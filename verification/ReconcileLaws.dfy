/** What reconciliation guarantees: applying everything that was detected settles the channel,
    and no sequence of checks and applications loses an alias or revives an ignored name. */
module ReconcileLaws {

  import opened Basics
  import opened Names
  import opened Reconcile

  // ---- Storing a list of names ----

  /** The non-empty trimmed pieces between the commas of a name. */
  ghost function Pieces(name: string): set<string> {
    NameSet(Split(name, ','))
  }

  ghost predicate HasPiece(names: seq<string>, x: string) {
    exists n :: n in names && x in Pieces(n)
  }

  lemma NameSetConcat(a: seq<string>, b: seq<string>)
    ensures NameSet(a + b) == NameSet(a) + NameSet(b)
  {
    forall x | x in NameSet(a)
      ensures x in NameSet(a + b)
    {
      var i :| 0 <= i < |a| && TrimSpace(a[i]) != "" && TrimSpace(a[i]) == x;
      assert (a + b)[i] == a[i];
    }
    forall x | x in NameSet(b)
      ensures x in NameSet(a + b)
    {
      var i :| 0 <= i < |b| && TrimSpace(b[i]) != "" && TrimSpace(b[i]) == x;
      assert (a + b)[|a| + i] == b[i];
    }
  }

  lemma {:induction false} FlatSplitPieces(names: seq<string>, x: string)
    ensures x in NameSet(FlatSplit(names, ',')) <==> HasPiece(names, x)
  {
    if names != [] {
      var init, last := names[..|names| - 1], names[|names| - 1];
      assert names == init + [last];
      FlatSplitPieces(init, x);
      NameSetConcat(FlatSplit(init, ','), Split(last, ','));
      assert HasPiece(names, x) <==> HasPiece(init, x) || x in Pieces(last);
    }
  }

  /** What reads back from a stored list: the pieces of its names. */
  lemma StoredPieces(names: seq<string>, x: string)
    ensures x in LocalNames(Join(names, ',')) <==> HasPiece(names, x)
  {
    StoredNames(names);
    NormalizeIsNormal(FlatSplit(names, ','));
    FlatSplitPieces(names, x);
    assert x in Normalize(FlatSplit(names, ',')) <==> x in Members(Normalize(FlatSplit(names, ',')));
  }

  lemma PieceOfFree(name: string)
    requires name != "" && Trimmed(name) && ',' !in name
    ensures Pieces(name) == {name}
  {
    SplitFree(name, ',');
    assert [name][0] == name;
  }

  lemma StoredContains(names: seq<string>, x: string)
    requires Normal(names) && x in names && ',' !in x
    ensures x in LocalNames(Join(names, ','))
  {
    PieceOfFree(x);
    StoredPieces(names, x);
  }

  ghost predicate CommaFree(names: seq<string>) {
    forall x :: x in names ==> ',' !in x
  }

  lemma NextModelsNormal(local: seq<string>, choice: Choice)
    ensures Normal(NextModels(local, choice))
    ensures forall x :: x in NextModels(local, choice) <==>
              (x in Normalize(local) || x in Normalize(choice.add)) && x !in choice.remove
  {
    var all := Normalize(local + choice.add);
    NormalizeIsNormal(local + choice.add);
    FilterNormal(all, x => x !in choice.remove);
    FilterMembers(all, x => x !in choice.remove);
    NormalizeConcat(local, choice.add);
    FilterMembers(Normalize(choice.add), x => x !in Members(Normalize(local)));
  }

  lemma StoredLocal(models: string)
    ensures Normalize(LocalNames(models)) == LocalNames(models)
    ensures Normal(LocalNames(models)) && CommaFree(LocalNames(models))
  {
    LocalNamesNormal(models);
    NormalizeOfNormal(LocalNames(models));
  }

  /** What the channel holds after an application, whatever the names contain. */
  lemma AppliedLocal(row: Row, choice: Choice, now: int)
    requires Normal(choice.add)
    ensures
      var next, after := NextModels(LocalNames(row.models), choice), LocalNames(AfterApply(row, choice, now).models);
      && (CommaFree(choice.add) ==> after == next)
      && (forall x :: x in next && ',' !in x ==> x in after)
  {
    var local := LocalNames(row.models);
    var next := NextModels(local, choice);
    StoredLocal(row.models);
    NextModelsNormal(local, choice);
    NormalizeOfNormal(choice.add);
    if next != local {
      forall x | x in next && ',' !in x
        ensures x in LocalNames(Join(next, ','))
      {
        StoredContains(next, x);
      }
      if CommaFree(choice.add) {
        StoredCommaFree(next);
      }
    }
  }

  // ---- Detect, apply everything, detect again ----

  function Detected(env: Env, row: Row, upstream: seq<string>): seq<string> {
    PendingAdd(env, GetModels(row.models), upstream, row.ignored)
  }

  function Missing(env: Env, row: Row, upstream: seq<string>): seq<string> {
    PendingRemove(env, GetModels(row.models), upstream)
  }

  function AfterDetect(env: Env, row: Row, upstream: seq<string>, now: int): Row {
    AfterCheck(env, row, Some(upstream), now, false)
  }

  function AfterApplyAll(row: Row, now: int): Row {
    AfterApply(row, Choose(row, Normalize(row.detected), [], Normalize(row.removed)), now)
  }

  /** Applying all that was detected keeps the survivors in order and appends the additions. */
  lemma ApplyAllModels(env: Env, row: Row, upstream: seq<string>, now: int)
    ensures
      var add, gone := Detected(env, row, upstream), Missing(env, row, upstream);
      var detected := AfterDetect(env, row, upstream, now);
      var choice := Choose(detected, Normalize(detected.detected), [], Normalize(detected.removed));
      && choice == Choice(add, [], gone)
      && NextModels(LocalNames(row.models), choice) == Filter(LocalNames(row.models), x => x !in gone) + add
  {
    var local, add, gone := LocalNames(row.models), Detected(env, row, upstream), Missing(env, row, upstream);
    PendingNormal(env, GetModels(row.models), upstream, row.ignored);
    PendingMembers(env, GetModels(row.models), upstream, row.ignored);
    NormalizeOfNormal(add);
    NormalizeOfNormal(gone);
    FilterAll(add, x => x in add);
    FilterAll(gone, x => x in gone && x !in add);
    StoredLocal(row.models);
    DisjointMerge(local, add);
    FilterConcat(local, add, x => x !in gone);
    FilterAll(add, x => x !in gone);
  }

  /** Every name that only ignore rules keep out is still kept out by a rule whose text is
      not itself one of the names about to be added. */
  ghost predicate KeepsIgnoring(env: Env, row: Row, upstream: seq<string>) {
    forall x :: x in Normalize(upstream) && x !in LocalNames(row.models) && x !in env.mapping.Values &&
                Ignored(env, Normalize(row.ignored), x) ==>
      Ignored(env, Filter(Normalize(row.ignored), rule => rule !in Detected(env, row, upstream)), x)
  }

  lemma ApplyAllRules(env: Env, row: Row, upstream: seq<string>, t1: int, t2: int)
    ensures Normalize(AfterApplyAll(AfterDetect(env, row, upstream, t1), t2).ignored)
            == Filter(Normalize(row.ignored), rule => rule !in Detected(env, row, upstream))
  {
    ApplyAllModels(env, row, upstream, t1);
    assert row.ignored + [] == row.ignored;
    NormalizeIsNormal(row.ignored);
    FilterNormal(Normalize(row.ignored), rule => rule !in Detected(env, row, upstream));
    NormalizeOfNormal(Filter(Normalize(row.ignored), rule => rule !in Detected(env, row, upstream)));
  }

  /** A name with a comma is split apart when stored, and stays pending for ever. */
  lemma CommaNeverSettles(env: Env, row: Row, upstream: seq<string>, t1: int, t2: int, x: string)
    requires x in Detected(env, row, upstream) && ',' in x
    ensures x in Detected(env, AfterApplyAll(AfterDetect(env, row, upstream, t1), t2), upstream)
  {
    var row2 := AfterApplyAll(AfterDetect(env, row, upstream, t1), t2);
    PendingMembers(env, GetModels(row.models), upstream, row.ignored);
    PendingMembers(env, GetModels(row2.models), upstream, row2.ignored);
    ApplyAllRules(env, row, upstream, t1, t2);
    LocalNamesNormal(row2.models);
    SurvivingRules(env, Normalize(row.ignored), rule => rule !in Detected(env, row, upstream), x);
  }

  lemma SurvivingRules(env: Env, rules: seq<string>, keep: string -> bool, x: string)
    ensures Ignored(env, Filter(rules, keep), x) ==> Ignored(env, rules, x)
  {
    FilterMembers(rules, keep);
    if Ignored(env, Filter(rules, keep), x) {
      var i :| 0 <= i < |Filter(rules, keep)| && IgnoredBy(env, Filter(rules, keep)[i], x);
      assert Filter(rules, keep)[i] in rules;
    }
  }

  /** For a fixed upstream list: detecting, applying everything and detecting again finds
      nothing left, exactly when no added name contains a comma and the additions do not
      delete an ignore rule that was still needed. */
  lemma SettlesIff(env: Env, row: Row, upstream: seq<string>, t1: int, t2: int)
    ensures
      var row2 := AfterApplyAll(AfterDetect(env, row, upstream, t1), t2);
      Detected(env, row2, upstream) == [] && Missing(env, row2, upstream) == []
      <==> CommaFree(Detected(env, row, upstream)) && KeepsIgnoring(env, row, upstream)
  {
    var row2 := AfterApplyAll(AfterDetect(env, row, upstream, t1), t2);
    var add := Detected(env, row, upstream);
    if CommaFree(add) {
      SettledMissing(env, row, upstream, t1, t2);
      SettledDetected(env, row, upstream, t1, t2);
    } else {
      var x :| x in add && ',' in x;
      CommaNeverSettles(env, row, upstream, t1, t2, x);
    }
  }

  /** The model list that applying everything stores, when no addition contains a comma. */
  lemma SettledModels(env: Env, row: Row, upstream: seq<string>, t1: int, t2: int)
    requires CommaFree(Detected(env, row, upstream))
    ensures
      var gone := Missing(env, row, upstream);
      LocalNames(AfterApplyAll(AfterDetect(env, row, upstream, t1), t2).models)
      == Filter(LocalNames(row.models), x => x !in gone) + Detected(env, row, upstream)
  {
    ApplyAllModels(env, row, upstream, t1);
    PendingNormal(env, GetModels(row.models), upstream, row.ignored);
    var row1 := AfterDetect(env, row, upstream, t1);
    AppliedLocal(row1, Choose(row1, Normalize(row1.detected), [], Normalize(row1.removed)), t2);
  }

  lemma SettledMembers(env: Env, row: Row, upstream: seq<string>, t1: int, t2: int)
    requires CommaFree(Detected(env, row, upstream))
    ensures
      forall x :: x in LocalNames(AfterApplyAll(AfterDetect(env, row, upstream, t1), t2).models) <==>
        (x in LocalNames(row.models) && (x in env.mapping.Keys || x in Normalize(upstream)))
        || x in Detected(env, row, upstream)
  {
    SettledModels(env, row, upstream, t1, t2);
    PendingMembers(env, GetModels(row.models), upstream, row.ignored);
    var gone := Missing(env, row, upstream);
    FilterMembers(LocalNames(row.models), x => x !in gone);
  }

  lemma SettledMissing(env: Env, row: Row, upstream: seq<string>, t1: int, t2: int)
    requires CommaFree(Detected(env, row, upstream))
    ensures Missing(env, AfterApplyAll(AfterDetect(env, row, upstream, t1), t2), upstream) == []
  {
    var row2 := AfterApplyAll(AfterDetect(env, row, upstream, t1), t2);
    SettledMembers(env, row, upstream, t1, t2);
    PendingMembers(env, GetModels(row.models), upstream, row.ignored);
    FilterEmpty(LocalNames(row2.models), x => Stale(env, Normalize(upstream), x));
  }

  lemma SettledDetected(env: Env, row: Row, upstream: seq<string>, t1: int, t2: int)
    requires CommaFree(Detected(env, row, upstream))
    ensures Detected(env, AfterApplyAll(AfterDetect(env, row, upstream, t1), t2), upstream) == []
            <==> KeepsIgnoring(env, row, upstream)
  {
    var row2 := AfterApplyAll(AfterDetect(env, row, upstream, t1), t2);
    SettledMembers(env, row, upstream, t1, t2);
    ApplyAllRules(env, row, upstream, t1, t2);
    PendingMembers(env, GetModels(row.models), upstream, row.ignored);
    FilterEmpty(Normalize(upstream), x => Wanted(env, LocalNames(row2.models), Normalize(row2.ignored), x));
    forall x | x in Normalize(upstream)
      ensures Wanted(env, LocalNames(row2.models), Normalize(row2.ignored), x) <==>
                x !in LocalNames(row.models) && x !in env.mapping.Values && Ignored(env, Normalize(row.ignored), x) &&
                !Ignored(env, Normalize(row2.ignored), x)
    {
      SurvivingRules(env, Normalize(row.ignored), rule => rule !in Detected(env, row, upstream), x);
    }
  }

  lemma PlainNamesKeepRules(env: Env, row: Row, upstream: seq<string>)
    requires forall x :: x in Normalize(upstream) ==> !IsRegexRule(x)
    ensures KeepsIgnoring(env, row, upstream)
  {
    var add, rules := Detected(env, row, upstream), Normalize(row.ignored);
    PendingMembers(env, GetModels(row.models), upstream, row.ignored);
    FilterMembers(rules, rule => rule !in add);
    forall x | x in Normalize(upstream) && Ignored(env, rules, x)
      ensures Ignored(env, Filter(rules, rule => rule !in add), x)
    {
      var i :| 0 <= i < |rules| && IgnoredBy(env, rules[i], x);
      assert rules[i] !in add;
      assert rules[i] in Filter(rules, rule => rule !in add);
    }
  }

  /** Without commas, and without upstream names that read as regular-expression rules,
      the channel always settles. */
  lemma Settles(env: Env, row: Row, upstream: seq<string>, t1: int, t2: int)
    requires CommaFree(Normalize(upstream)) && forall x :: x in Normalize(upstream) ==> !IsRegexRule(x)
    ensures
      var row2 := AfterApplyAll(AfterDetect(env, row, upstream, t1), t2);
      Detected(env, row2, upstream) == [] && Missing(env, row2, upstream) == []
  {
    PlainNamesKeepRules(env, row, upstream);
    assert CommaFree(Detected(env, row, upstream)) by {
      PendingMembers(env, GetModels(row.models), upstream, row.ignored);
    }
    SettlesIff(env, row, upstream, t1, t2);
  }

  // ---- Every application splits what is pending ----

  lemma {:induction false} DistinctCount(names: seq<string>)
    requires Distinct(names)
    ensures |Members(names)| == |names|
  {
    if names != [] {
      var init, last := names[..|names| - 1], names[|names| - 1];
      DistinctCount(init);
      assert names == init + [last];
      assert Members(names) == Members(init) + {last};
    }
  }

  lemma ThreeWaySplit(whole: seq<string>, a: seq<string>, b: seq<string>, c: seq<string>)
    requires Distinct(whole) && Distinct(a) && Distinct(b) && Distinct(c)
    requires forall x :: x in whole <==> x in a || x in b || x in c
    requires forall x :: !(x in a && x in b) && !(x in a && x in c) && !(x in b && x in c)
    ensures |whole| == |a| + |b| + |c|
  {
    DistinctCount(whole);
    DistinctCount(a);
    DistinctCount(b);
    DistinctCount(c);
    assert Members(whole) == Members(a) + Members(b) + Members(c);
    assert Members(a) !! Members(b) && (Members(a) + Members(b)) !! Members(c);
  }

  /** Pending additions split three ways, adding beating ignoring: added, ignored, still
      pending. Nothing is lost or counted twice, and the rules follow. */
  lemma ApplySplitsPending(row: Row, addInput: seq<string>, ignoreInput: seq<string>, removeInput: seq<string>)
    ensures
      var choice := Choose(row, addInput, ignoreInput, removeInput);
      var pending, rest := Normalize(row.detected), RemainingAdd(row, choice);
      var ignored := Filter(choice.ignore, x => x !in choice.add);
      && |pending| == |choice.add| + |ignored| + |rest|
      && (forall x :: x in pending <==> x in choice.add || x in ignored || x in rest)
      && (forall x :: x in ignored ==> x in NextIgnored(row, choice))
      && (forall x :: x in choice.add ==> x !in NextIgnored(row, choice))
  {
    var choice := Choose(row, addInput, ignoreInput, removeInput);
    ChoiceFacts(row, addInput, ignoreInput, removeInput);
    var pending, rest := Normalize(row.detected), RemainingAdd(row, choice);
    var ignored := Filter(choice.ignore, x => x !in choice.add);
    NormalizeIsNormal(row.detected);
    FilterNormal(pending, x => x !in choice.add && x !in choice.ignore);
    FilterMembers(pending, x => x !in choice.add && x !in choice.ignore);
    FilterNormal(choice.ignore, x => x !in choice.add);
    FilterMembers(choice.ignore, x => x !in choice.add);
    ThreeWaySplit(pending, choice.add, ignored, rest);
    NextIgnoredMembers(row, choice);
  }

  lemma NextIgnoredMembers(row: Row, choice: Choice)
    requires Normal(choice.ignore)
    ensures forall x :: x in NextIgnored(row, choice) <==>
              (x in Normalize(row.ignored) || x in choice.ignore) && x !in choice.add
    ensures Normalize(NextIgnored(row, choice)) == NextIgnored(row, choice)
  {
    var all := Normalize(row.ignored + choice.ignore);
    NormalizeIsNormal(row.ignored + choice.ignore);
    FilterNormal(all, x => x !in choice.add);
    FilterMembers(all, x => x !in choice.add);
    NormalizeOfNormal(NextIgnored(row, choice));
    NormalizeConcat(row.ignored, choice.ignore);
    NormalizeOfNormal(choice.ignore);
    FilterMembers(choice.ignore, x => x !in Members(Normalize(row.ignored)));
  }

  // ---- Whole runs ----

  datatype Event =
    | Check(upstream: Option<seq<string>>, now: int, minInterval: int, force: bool, autoApply: bool, saved: bool)
    | Apply(add: seq<string>, ignore: seq<string>, remove: seq<string>, now: int, saved: bool)

  function Step(env: Env, row: Row, event: Event): Row {
    match event
    case Check(upstream, now, minInterval, force, autoApply, saved) =>
      if saved && !Throttled(row, now, minInterval, force) then AfterCheck(env, row, upstream, now, autoApply) else row
    case Apply(add, ignore, remove, now, saved) =>
      if saved then AfterApply(row, Choose(row, add, ignore, remove), now) else row
  }

  function Run(env: Env, row: Row, events: seq<Event>): Row {
    if events == [] then row else Step(env, Run(env, row, events[..|events| - 1]), events[|events| - 1])
  }

  /** Names ignored by their exact text. */
  predicate ExactlyIgnored(row: Row, x: string) {
    x in Normalize(row.ignored) && !IsRegexRule(x)
  }

  /** No alias is pending removal, and no exactly ignored name is pending addition. */
  ghost predicate Consistent(env: Env, row: Row) {
    && (forall x :: x in Normalize(row.removed) ==> x !in env.mapping.Keys)
    && (forall x :: ExactlyIgnored(row, x) ==> x !in Normalize(row.detected))
  }

  lemma ExactRuleIgnores(env: Env, row: Row, x: string)
    requires ExactlyIgnored(row, x)
    ensures Ignored(env, Normalize(row.ignored), x)
  {
    var i :| 0 <= i < |Normalize(row.ignored)| && Normalize(row.ignored)[i] == x;
    assert IgnoredBy(env, Normalize(row.ignored)[i], x);
  }

  lemma CheckConsistent(env: Env, row: Row, upstream: Option<seq<string>>, now: int, autoApply: bool)
    requires Consistent(env, row)
    ensures Consistent(env, AfterCheck(env, row, upstream, now, autoApply))
  {
    if upstream.Some? {
      var local := GetModels(row.models);
      PendingNormal(env, local, upstream.value, row.ignored);
      PendingMembers(env, local, upstream.value, row.ignored);
      NormalizeOfNormal(Detected(env, row, upstream.value));
      NormalizeOfNormal(Missing(env, row, upstream.value));
      forall x | ExactlyIgnored(row, x)
        ensures x !in Detected(env, row, upstream.value)
      {
        ExactRuleIgnores(env, row, x);
      }
      assert Normalize([]) == [];
    }
  }

  lemma RemainingAddMembers(row: Row, choice: Choice)
    ensures Normalize(RemainingAdd(row, choice)) == RemainingAdd(row, choice)
    ensures forall x :: x in RemainingAdd(row, choice) <==>
              x in Normalize(row.detected) && x !in choice.add && x !in choice.ignore
  {
    NormalizeIsNormal(row.detected);
    FilterNormal(Normalize(row.detected), x => x !in choice.add && x !in choice.ignore);
    FilterMembers(Normalize(row.detected), x => x !in choice.add && x !in choice.ignore);
    NormalizeOfNormal(RemainingAdd(row, choice));
  }

  lemma RemainingRemoveMembers(row: Row, choice: Choice)
    ensures Normalize(RemainingRemove(row, choice)) == RemainingRemove(row, choice)
    ensures forall x :: x in RemainingRemove(row, choice) <==> x in Normalize(row.removed) && x !in choice.remove
  {
    NormalizeIsNormal(row.removed);
    FilterNormal(Normalize(row.removed), x => x !in choice.remove);
    FilterMembers(Normalize(row.removed), x => x !in choice.remove);
    NormalizeOfNormal(RemainingRemove(row, choice));
  }

  lemma ApplyKeepsAliases(env: Env, row: Row, choice: Choice, now: int)
    requires forall x :: x in Normalize(row.removed) ==> x !in env.mapping.Keys
    ensures forall x :: x in Normalize(AfterApply(row, choice, now).removed) ==> x !in env.mapping.Keys
  {
    RemainingRemoveMembers(row, choice);
  }

  lemma ApplyKeepsIgnored(row: Row, choice: Choice, now: int)
    requires Normal(choice.ignore)
    requires forall x :: ExactlyIgnored(row, x) ==> x !in Normalize(row.detected)
    ensures forall x :: ExactlyIgnored(AfterApply(row, choice, now), x) ==>
              x !in Normalize(AfterApply(row, choice, now).detected)
  {
    RemainingAddMembers(row, choice);
    NextIgnoredMembers(row, choice);
  }

  lemma ApplyConsistent(env: Env, row: Row, add: seq<string>, ignore: seq<string>, remove: seq<string>, now: int)
    requires Consistent(env, row)
    ensures Consistent(env, AfterApply(row, Choose(row, add, ignore, remove), now))
  {
    var choice := Choose(row, add, ignore, remove);
    ChoiceFacts(row, add, ignore, remove);
    ApplyKeepsAliases(env, row, choice, now);
    ApplyKeepsIgnored(row, choice, now);
  }

  /** Automatic syncing never drops a model: the old list is a prefix of the new one. */
  lemma AutoSyncKeepsModels(env: Env, row: Row, upstream: Option<seq<string>>, now: int, autoApply: bool)
    ensures LocalNames(row.models) <= LocalNames(AfterCheck(env, row, upstream, now, autoApply).models)
  {
    var row' := AfterCheck(env, row, upstream, now, autoApply);
    if row'.models != row.models {
      var local, add := LocalNames(row.models), Detected(env, row, upstream.value);
      AutoSyncAppends(env, row.models, upstream.value, row.ignored);
      StoredNames(local + add);
      FlatSplitConcat(local, add, ',');
      StoredLocal(row.models);
      FlatSplitFree(local, ',');
      NormalizeConcat(local, FlatSplit(add, ','));
    }
  }

  lemma StepSafe(env: Env, row: Row, event: Event)
    requires Consistent(env, row)
    ensures Consistent(env, Step(env, row, event))
    ensures forall x :: x in env.mapping.Keys && x in LocalNames(row.models) ==>
              x in LocalNames(Step(env, row, event).models)
    ensures forall x :: ExactlyIgnored(row, x) ==> ExactlyIgnored(Step(env, row, event), x)
  {
    match event
    case Check(upstream, now, minInterval, force, autoApply, saved) =>
      CheckConsistent(env, row, upstream, now, autoApply);
      AutoSyncKeepsModels(env, row, upstream, now, autoApply);
    case Apply(add, ignore, remove, now, saved) =>
      ApplyConsistent(env, row, add, ignore, remove, now);
      ApplyKeeps(env, row, add, ignore, remove, now);
  }

  lemma ApplyKeeps(env: Env, row: Row, add: seq<string>, ignore: seq<string>, remove: seq<string>, now: int)
    requires Consistent(env, row)
    ensures
      var row' := AfterApply(row, Choose(row, add, ignore, remove), now);
      && (forall x :: x in env.mapping.Keys && x in LocalNames(row.models) ==> x in LocalNames(row'.models))
      && (forall x :: ExactlyIgnored(row, x) ==> ExactlyIgnored(row', x))
  {
    var choice := Choose(row, add, ignore, remove);
    ChoiceFacts(row, add, ignore, remove);
    NextIgnoredMembers(row, choice);
    StoredLocal(row.models);
    NextModelsNormal(LocalNames(row.models), choice);
    AppliedLocal(row, choice, now);
  }

  /** Over any sequence of checks and applications: a redirect source that the channel
      serves is never removed, and an exactly ignored name stays ignored and is never
      pending again. */
  lemma {:induction false} RunIsSafe(env: Env, row: Row, events: seq<Event>)
    requires Consistent(env, row)
    ensures Consistent(env, Run(env, row, events))
    ensures forall x :: x in env.mapping.Keys && x in LocalNames(row.models) ==>
              x in LocalNames(Run(env, row, events).models)
    ensures forall x :: ExactlyIgnored(row, x) ==> ExactlyIgnored(Run(env, row, events), x)
  {
    if events != [] {
      var init := events[..|events| - 1];
      RunIsSafe(env, row, init);
      StepSafe(env, Run(env, row, init), events[|events| - 1]);
    }
  }

  // ---- Which names a run adds ----

  /** The names that a step merges into the stored model list. */
  function Added(env: Env, row: Row, event: Event): seq<string> {
    match event
    case Check(upstream, now, minInterval, force, autoApply, saved) =>
      if saved && !Throttled(row, now, minInterval, force) && upstream.Some? && autoApply && env.autoSync
      then Detected(env, row, upstream.value) else []
    case Apply(add, ignore, remove, now, saved) =>
      if saved then Choose(row, add, ignore, remove).add else []
  }

  /** Names that were there already are free of commas, hence their own only piece. */
  lemma LocalPieces(models: string, x: string)
    ensures HasPiece(LocalNames(models), x) <==> x in LocalNames(models)
  {
    StoredLocal(models);
    forall n | n in LocalNames(models)
      ensures Pieces(n) == {n}
    {
      PieceOfFree(n);
    }
  }

  lemma SyncAddsIff(env: Env, row: Row, upstream: seq<string>, now: int, x: string)
    requires env.autoSync && x !in LocalNames(row.models)
    ensures x in LocalNames(AfterCheck(env, row, Some(upstream), now, true).models) <==>
            HasPiece(Detected(env, row, upstream), x)
  {
    var local, add := LocalNames(row.models), Detected(env, row, upstream);
    if add != [] {
      AutoSyncAppends(env, row.models, upstream, row.ignored);
      StoredPieces(local + add, x);
      LocalPieces(row.models, x);
    }
  }

  lemma ApplyAddsIff(row: Row, choice: Choice, now: int, x: string)
    requires Normal(choice.add) && (forall n :: n in choice.add ==> n !in choice.remove)
    requires x !in LocalNames(row.models)
    ensures x in LocalNames(AfterApply(row, choice, now).models) <==> HasPiece(choice.add, x)
  {
    var local := LocalNames(row.models);
    var next := NextModels(local, choice);
    StoredLocal(row.models);
    NextModelsNormal(local, choice);
    NormalizeOfNormal(choice.add);
    LocalPieces(row.models, x);
    StoredPieces(next, x);
    if HasPiece(choice.add, x) {
      var n :| n in choice.add && x in Pieces(n);
      assert n in next;
      assert HasPiece(next, x);
    }
  }

  /** A step puts a new name into the model list exactly when it merges in a name that has
      it as a piece between commas. */
  lemma StepAddsIff(env: Env, row: Row, event: Event, x: string)
    requires x !in LocalNames(row.models)
    ensures x in LocalNames(Step(env, row, event).models) <==> HasPiece(Added(env, row, event), x)
  {
    match event
    case Check(upstream, now, minInterval, force, autoApply, saved) =>
      if upstream.Some? && autoApply && env.autoSync {
        SyncAddsIff(env, row, upstream.value, now, x);
      }
    case Apply(add, ignore, remove, now, saved) =>
      ChoiceFacts(row, add, ignore, remove);
      ApplyAddsIff(row, Choose(row, add, ignore, remove), now, x);
  }

  /** Before step `k` the channel serves `x`. */
  ghost predicate ServedAt(env: Env, row: Row, events: seq<Event>, x: string, k: nat) {
    k <= |events| && x in LocalNames(Run(env, row, events[..k]).models)
  }

  /** Step `k` merges in a name with the piece `x`. */
  ghost predicate AddedAt(env: Env, row: Row, events: seq<Event>, x: string, k: nat) {
    k < |events| && HasPiece(Added(env, Run(env, row, events[..k]), events[k]), x)
  }

  /** Step `k` merges in a name with a comma and with the piece `x`. */
  ghost predicate SmuggledAt(env: Env, row: Row, events: seq<Event>, x: string, k: nat) {
    k < |events| && SmuggledIn(Added(env, Run(env, row, events[..k]), events[k]), x)
  }

  lemma RunNext(env: Env, row: Row, events: seq<Event>, k: nat)
    requires k < |events|
    ensures Run(env, row, events[..k + 1]) == Step(env, Run(env, row, events[..k]), events[k])
  {
    assert events[..k + 1][..k] == events[..k];
  }

  /** If `holds` is false at first and each step can only make it true as `crosses` says,
      it is true at some time exactly when some step crosses. */
  lemma {:induction false} Crossing(holds: nat -> bool, crosses: nat -> bool, n: nat)
    requires !holds(0)
    requires forall k: nat :: k < n && !holds(k) ==> (holds(k + 1) <==> crosses(k))
    ensures (exists k: nat :: k <= n && holds(k)) <==> (exists k: nat :: k < n && crosses(k))
  {
    if n > 0 {
      Crossing(holds, crosses, n - 1);
      var last: nat := n - 1;
      assert holds(last + 1) == holds(n);
      if !holds(last) {
        assert holds(n) <==> crosses(last);
      }
    }
  }

  lemma ServedNext(env: Env, row: Row, events: seq<Event>, x: string, k: nat)
    requires k < |events| && !ServedAt(env, row, events, x, k)
    ensures ServedAt(env, row, events, x, k + 1) <==> AddedAt(env, row, events, x, k)
  {
    RunNext(env, row, events, k);
    StepAddsIff(env, Run(env, row, events[..k]), events[k], x);
  }

  lemma NotServedAtFirst(env: Env, row: Row, events: seq<Event>, x: string)
    ensures ServedAt(env, row, events, x, 0) <==> x in LocalNames(row.models)
  {
    assert events[..0] == [];
  }

  /** Over any run: a name the channel does not serve comes to be served exactly when some
      step merges in a name that has it as a piece. */
  lemma RunAddsIff(env: Env, row: Row, events: seq<Event>, x: string)
    requires x !in LocalNames(row.models)
    ensures (exists k: nat :: ServedAt(env, row, events, x, k)) <==> (exists k: nat :: AddedAt(env, row, events, x, k))
  {
    var served := (k: nat) => ServedAt(env, row, events, x, k);
    var added := (k: nat) => AddedAt(env, row, events, x, k);
    NotServedAtFirst(env, row, events, x);
    forall k: nat | k < |events| && !served(k)
      ensures served(k + 1) <==> added(k)
    {
      ServedNext(env, row, events, x, k);
    }
    Crossing(served, added, |events|);
    assert forall k: nat :: served(k) == ServedAt(env, row, events, x, k);
    assert forall k: nat :: added(k) == AddedAt(env, row, events, x, k);
  }

  lemma AddedNormal(env: Env, row: Row, event: Event)
    ensures Normal(Added(env, row, event))
  {
    match event
    case Check(upstream, now, minInterval, force, autoApply, saved) =>
      if upstream.Some? {
        PendingNormal(env, GetModels(row.models), upstream.value, row.ignored);
      }
    case Apply(add, ignore, remove, now, saved) =>
      ChoiceFacts(row, add, ignore, remove);
  }

  /** An exactly ignored name is never itself among the names merged in. */
  lemma AddedNotIgnored(env: Env, row: Row, event: Event, x: string)
    requires Consistent(env, row) && ExactlyIgnored(row, x)
    ensures x !in Added(env, row, event)
  {
    match event
    case Check(upstream, now, minInterval, force, autoApply, saved) =>
      if upstream.Some? {
        PendingMembers(env, GetModels(row.models), upstream.value, row.ignored);
        ExactRuleIgnores(env, row, x);
      }
    case Apply(add, ignore, remove, now, saved) =>
      ChoiceFacts(row, add, ignore, remove);
  }

  /** One of the names merged in has a comma, and `x` as a piece. */
  ghost predicate SmuggledIn(names: seq<string>, x: string) {
    exists n :: n in names && ',' in n && x in Pieces(n)
  }

  lemma IgnoredPieces(env: Env, row: Row, event: Event, x: string)
    requires Consistent(env, row) && ExactlyIgnored(row, x)
    ensures HasPiece(Added(env, row, event), x) <==> SmuggledIn(Added(env, row, event), x)
  {
    AddedNormal(env, row, event);
    AddedNotIgnored(env, row, event, x);
    forall n | n in Added(env, row, event) && x in Pieces(n)
      ensures ',' in n
    {
      if ',' !in n {
        PieceOfFree(n);
      }
    }
  }

  lemma IgnoredAddedAt(env: Env, row: Row, events: seq<Event>, x: string, k: nat)
    requires Consistent(env, row) && ExactlyIgnored(row, x)
    ensures AddedAt(env, row, events, x, k) <==> SmuggledAt(env, row, events, x, k)
  {
    if k < |events| {
      RunIsSafe(env, row, events[..k]);
      IgnoredPieces(env, Run(env, row, events[..k]), events[k], x);
    }
  }

  /** Over any run: an exactly ignored name is revived exactly when some step merges in a
      name with a comma that has it as a piece. */
  lemma IgnoredRevivedIff(env: Env, row: Row, events: seq<Event>, x: string)
    requires Consistent(env, row) && ExactlyIgnored(row, x) && x !in LocalNames(row.models)
    ensures (exists k: nat :: ServedAt(env, row, events, x, k)) <==>
            (exists k: nat :: SmuggledAt(env, row, events, x, k))
  {
    RunAddsIff(env, row, events, x);
    forall k: nat
      ensures AddedAt(env, row, events, x, k) <==> SmuggledAt(env, row, events, x, k)
    {
      IgnoredAddedAt(env, row, events, x, k);
    }
  }

  /** Every list that upstream sends, and the additions still pending, are free of commas. */
  ghost predicate NoCommas(row: Row, events: seq<Event>) {
    && CommaFree(Normalize(row.detected))
    && (forall i :: 0 <= i < |events| && events[i].Check? && events[i].upstream.Some? ==>
          CommaFree(Normalize(events[i].upstream.value)))
  }

  lemma StepStaysCommaFree(env: Env, row: Row, event: Event)
    requires CommaFree(Normalize(row.detected))
    requires event.Check? && event.upstream.Some? ==> CommaFree(Normalize(event.upstream.value))
    ensures CommaFree(Added(env, row, event)) && CommaFree(Normalize(Step(env, row, event).detected))
  {
    match event
    case Check(upstream, now, minInterval, force, autoApply, saved) =>
      if upstream.Some? {
        PendingMembers(env, GetModels(row.models), upstream.value, row.ignored);
        PendingNormal(env, GetModels(row.models), upstream.value, row.ignored);
        NormalizeOfNormal(Detected(env, row, upstream.value));
        assert Normalize([]) == [];
      }
    case Apply(add, ignore, remove, now, saved) =>
      ChoiceFacts(row, add, ignore, remove);
      RemainingAddMembers(row, Choose(row, add, ignore, remove));
  }

  lemma {:induction false} RunStaysCommaFree(env: Env, row: Row, events: seq<Event>)
    requires NoCommas(row, events)
    ensures CommaFree(Normalize(Run(env, row, events).detected))
  {
    if events != [] {
      var init, last := events[..|events| - 1], events[|events| - 1];
      RunStaysCommaFree(env, row, init);
      StepStaysCommaFree(env, Run(env, row, init), last);
    }
  }

  lemma NothingSmuggled(env: Env, row: Row, events: seq<Event>, x: string, k: nat)
    requires NoCommas(row, events)
    ensures !SmuggledAt(env, row, events, x, k)
  {
    if k < |events| {
      RunStaysCommaFree(env, row, events[..k]);
      StepStaysCommaFree(env, Run(env, row, events[..k]), events[k]);
    }
  }

  /** In particular, while no name contains a comma, an exactly ignored name is never added. */
  lemma IgnoredNeverRevived(env: Env, row: Row, events: seq<Event>, x: string)
    requires Consistent(env, row) && NoCommas(row, events)
    requires ExactlyIgnored(row, x) && x !in LocalNames(row.models)
    ensures x !in LocalNames(Run(env, row, events).models)
    ensures CommaFree(Normalize(Run(env, row, events).detected))
  {
    forall k: nat
      ensures !SmuggledAt(env, row, events, x, k)
    {
      NothingSmuggled(env, row, events, x, k);
    }
    IgnoredRevivedIff(env, row, events, x);
    RunStaysCommaFree(env, row, events);
    assert events[..|events|] == events && !ServedAt(env, row, events, x, |events|);
  }

  // ---- Names with commas ----

  lemma SingleName(x: string)
    requires x != "" && Trimmed(x)
    ensures Normal([x]) && Normalize([x]) == [x]
  {
    NormalizeOfNormal([x]);
  }

  /** The condition on commas is needed: an upstream that offers "a,b" is never settled. */
  lemma CommaExample(env: Env, t1: int, t2: int)
    requires env.mapping == map[]
    ensures
      var row := Row("", [], [], [], 0);
      Detected(env, AfterApplyAll(AfterDetect(env, row, ["a,b"], t1), t2), ["a,b"]) != []
  {
    var row, x := Row("", [], [], [], 0), "a,b";
    SingleName(x);
    PendingMembers(env, GetModels(row.models), [x], row.ignored);
    assert Normalize([]) == [] && x[1] == ',';
    CommaNeverSettles(env, row, [x], t1, t2, x);
  }

  lemma FilterPair(x: string, y: string, keep: string -> bool)
    requires keep(x) && !keep(y)
    ensures Filter([x, y], keep) == [x]
  {
    assert [x, y][..1] == [x] && [x][..0] == [];
    assert Filter([x], keep) == [x];
  }

  lemma RegexDetected(env: Env, row: Row, rule: string, model: string)
    requires env.mapping == map[] && row.models == "" && row.ignored == [rule] && IsRegexRule(rule)
    requires Normal([rule, model]) && !IgnoredBy(env, rule, rule) && IgnoredBy(env, rule, model)
    ensures Normalize([rule, model]) == [rule, model] && Normalize([rule]) == [rule] && LocalNames("") == []
    ensures Ignored(env, [rule], model) && Detected(env, row, [rule, model]) == [rule]
  {
    assert [rule, model][0] == rule && [rule, model][1] == model;
    NormalizeOfNormal([rule, model]);
    NormalizeOfNormal([rule]);
    assert Normalize([]) == [];
    assert IgnoredBy(env, [rule][0], model);
    assert Wanted(env, [], [rule], rule) && !Wanted(env, [], [rule], model);
    FilterPair(rule, model, x => Wanted(env, [], [rule], x));
  }

  lemma RuleIsDeleted(env: Env, row: Row, rule: string, model: string)
    requires env.mapping == map[] && row.models == "" && row.ignored == [rule] && IsRegexRule(rule)
    requires Normal([rule, model]) && !IgnoredBy(env, rule, rule) && IgnoredBy(env, rule, model)
    ensures !KeepsIgnoring(env, row, [rule, model])
  {
    RegexDetected(env, row, rule, model);
    var kept := Filter(Normalize(row.ignored), r => r !in Detected(env, row, [rule, model]));
    FilterEmpty(Normalize(row.ignored), r => r !in Detected(env, row, [rule, model]));
    assert model in [rule, model] && !Ignored(env, kept, model);
  }

  /** Upstream offers a name that is also the rule ignoring another of its names: adding it
      deletes the rule, and the other name becomes pending. */
  lemma DeletedRuleUnsettles(env: Env, row: Row, rule: string, model: string, t1: int, t2: int)
    requires env.mapping == map[] && row.models == "" && row.ignored == [rule] && IsRegexRule(rule) && ',' !in rule
    requires Normal([rule, model]) && !IgnoredBy(env, rule, rule) && IgnoredBy(env, rule, model)
    ensures Detected(env, AfterApplyAll(AfterDetect(env, row, [rule, model], t1), t2), [rule, model]) != []
  {
    RuleIsDeleted(env, row, rule, model);
    assert CommaFree(Detected(env, row, [rule, model])) by {
      RegexDetected(env, row, rule, model);
    }
    SettledDetected(env, row, [rule, model], t1, t2);
  }

  /** The condition on ignore rules is needed too. */
  lemma RegexExample(row: Row, t1: int, t2: int)
    requires row == Row("", ["regex:^gpt"], [], [], 0)
    ensures
      var env, upstream := Env(map[], (pattern, name) => name == "gpt-4", false), ["regex:^gpt", "gpt-4"];
      Detected(env, AfterApplyAll(AfterDetect(env, row, upstream, t1), t2), upstream) != []
  {
    var env := Env(map[], (pattern, name) => name == "gpt-4", false);
    var rule, model := "regex:^gpt", "gpt-4";
    assert rule[0] == 'r' && model[0] == 'g';
    assert Trimmed(rule) && Trimmed(model) && Normal([rule, model]);
    DeletedRuleUnsettles(env, row, rule, model, t1, t2);
  }

  lemma CommaPieces()
    ensures "b" in LocalNames("a,b")
  {
    var parts := ["a", "b"];
    assert parts[..1] == ["a"];
    assert Join(["a"], ',') == "a" && Join(parts, ',') == "a" + [','] + "b" == "a,b";
    StoredCommaFree(parts);
  }

  lemma AddedToEmptyChannel(row: Row, x: string, now: int)
    requires row.models == "" && row.detected == [x] && x != "" && Trimmed(x)
    ensures AfterApply(row, Choose(row, [x], [], []), now).models == x
  {
    SingleName(x);
    var choice := Choose(row, [x], [], []);
    assert Normalize([]) == [] && LocalNames("") == [] && [] + [x] == [x];
    assert choice.add == [x] && choice.remove == [];
    FilterAll([x], y => y !in choice.remove);
  }

  /** And so is it for ignored names: adding "a,b" revives an ignored "b". */
  lemma CommaRevivesExample(env: Env, now: int)
    ensures
      var row := Row("", ["b"], ["a,b"], [], 0);
      && ExactlyIgnored(row, "b") && "b" !in LocalNames(row.models)
      && "b" in LocalNames(Step(env, row, Apply(["a,b"], [], [], now, true)).models)
  {
    SingleName("b");
    assert Normalize([]) == [];
    AddedToEmptyChannel(Row("", ["b"], ["a,b"], [], 0), "a,b", now);
    CommaPieces();
  }
}

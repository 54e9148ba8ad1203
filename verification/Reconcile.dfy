/** Reconciling a channel's model list with the list its upstream offers: detecting pending
    additions and removals, applying the ones an administrator selects, and syncing
    automatically. Regular-expression ignore rules are an uninterpreted predicate. */
module Reconcile {

  import opened Basics
  import opened Names

  /** What stays fixed: the redirect mapping (source alias to target), the regular
      expression matcher (false for a pattern that does not compile), the auto-sync switch. */
  datatype Env = Env(mapping: map<string, string>, matches: (string, string) -> bool, autoSync: bool)

  /** The stored columns of a channel that reconciliation reads and writes. */
  datatype Row = Row(models: string, ignored: seq<string>, detected: seq<string>, removed: seq<string>, lastCheck: int)

  const REGEX_PREFIX := "regex:"

  predicate IsRegexRule(rule: string) {
    REGEX_PREFIX <= rule
  }

  predicate IgnoredBy(env: Env, rule: string, name: string) {
    if IsRegexRule(rule) then env.matches(TrimSpace(rule[|REGEX_PREFIX|..]), name) else rule == name
  }

  predicate Ignored(env: Env, rules: seq<string>, name: string) {
    exists i :: 0 <= i < |rules| && IgnoredBy(env, rules[i], name)
  }

  predicate Wanted(env: Env, local: seq<string>, rules: seq<string>, name: string) {
    name !in local && name !in env.mapping.Values && !Ignored(env, rules, name)
  }

  predicate Stale(env: Env, upstream: seq<string>, name: string) {
    name !in env.mapping.Keys && name !in upstream
  }

  function PendingAdd(env: Env, local: seq<string>, upstream: seq<string>, rules: seq<string>): seq<string> {
    Filter(Normalize(upstream), x => Wanted(env, Normalize(local), Normalize(rules), x))
  }

  function PendingRemove(env: Env, local: seq<string>, upstream: seq<string>): seq<string> {
    Filter(Normalize(local), x => Stale(env, Normalize(upstream), x))
  }

  lemma PendingNormal(env: Env, local: seq<string>, upstream: seq<string>, rules: seq<string>)
    ensures Normal(PendingAdd(env, local, upstream, rules)) && Normal(PendingRemove(env, local, upstream))
  {
    NormalizeIsNormal(upstream);
    NormalizeIsNormal(local);
    FilterNormal(Normalize(upstream), x => Wanted(env, Normalize(local), Normalize(rules), x));
    FilterNormal(Normalize(local), x => Stale(env, Normalize(upstream), x));
  }

  lemma PendingMembers(env: Env, local: seq<string>, upstream: seq<string>, rules: seq<string>)
    ensures forall x :: x in PendingAdd(env, local, upstream, rules) <==>
              x in Normalize(upstream) && Wanted(env, Normalize(local), Normalize(rules), x)
    ensures forall x :: x in PendingRemove(env, local, upstream) <==>
              x in Normalize(local) && Stale(env, Normalize(upstream), x)
  {
    FilterMembers(Normalize(upstream), x => Wanted(env, Normalize(local), Normalize(rules), x));
    FilterMembers(Normalize(local), x => Stale(env, Normalize(upstream), x));
  }

  method CollectPendingChanges(env: Env, localModels: seq<string>, upstreamModels: seq<string>,
                               ignoredModels: seq<string>)
    returns (pendingAdd: seq<string>, pendingRemove: seq<string>)
    ensures pendingAdd == PendingAdd(env, localModels, upstreamModels, ignoredModels)
    ensures pendingRemove == PendingRemove(env, localModels, upstreamModels)
  {
    var local, upstream, rules := Normalize(localModels), Normalize(upstreamModels), Normalize(ignoredModels);
    var localSet := SetOfNames(localModels);
    var upstreamSet := SetOfNames(upstreamModels);
    NormalizeIsNormal(localModels);
    NormalizeIsNormal(upstreamModels);

    var sources: set<string>, targets: set<string> := {}, {};
    var rest := env.mapping.Keys;
    while rest != {}
      invariant rest <= env.mapping.Keys
      invariant sources == env.mapping.Keys - rest
      invariant targets == set source | source in env.mapping && source !in rest :: env.mapping[source]
      decreases rest
    {
      var source :| source in rest;
      rest := rest - {source};
      sources := sources + {source};
      targets := targets + {env.mapping[source]};
    }
    var covered := localSet + targets;

    pendingAdd := Filter(upstream, x => x !in covered && !Ignored(env, rules, x));
    pendingRemove := Filter(local, x => x !in sources && x !in upstreamSet);
    assert forall x :: x in local <==> x in Members(local);
    assert forall x :: x in upstream <==> x in Members(upstream);
    FilterSame(upstream, x => x !in covered && !Ignored(env, rules, x), x => Wanted(env, local, rules, x));
    FilterSame(local, x => x !in sources && x !in upstreamSet, x => Stale(env, upstream, x));
    PendingNormal(env, localModels, upstreamModels, ignoredModels);
    NormalizeOfNormal(pendingAdd);
    NormalizeOfNormal(pendingRemove);
    pendingAdd, pendingRemove := Normalize(pendingAdd), Normalize(pendingRemove);
  }

  // ---- One check of the upstream list ----

  predicate Throttled(row: Row, now: int, minInterval: int, force: bool) {
    !force && row.lastCheck > 0 && now - row.lastCheck < minInterval
  }

  /** The row after a check; `upstream` is None when fetching it failed. */
  function AfterCheck(env: Env, row: Row, upstream: Option<seq<string>>, now: int, autoApply: bool): Row {
    if upstream.None? then row.(lastCheck := now)
    else
      var local := GetModels(row.models);
      var add := PendingAdd(env, local, upstream.value, row.ignored);
      var remove := PendingRemove(env, local, upstream.value);
      if autoApply && env.autoSync && add != []
      then Row(Join(Normalize(local + add), ','), row.ignored, [], remove, now)
      else Row(row.models, row.ignored, add, remove, now)
  }

  /** The names chosen by an administrator, cut down to what is pending; adding beats removing. */
  datatype Choice = Choice(add: seq<string>, ignore: seq<string>, remove: seq<string>)

  function Choose(row: Row, addInput: seq<string>, ignoreInput: seq<string>, removeInput: seq<string>): Choice {
    var pendingAdd, pendingRemove := Normalize(row.detected), Normalize(row.removed);
    var add := Filter(Normalize(addInput), x => x in pendingAdd);
    Choice(add,
           Filter(Normalize(ignoreInput), x => x in pendingAdd),
           Filter(Normalize(removeInput), x => x in pendingRemove && x !in add))
  }

  /** The model list after a choice: survivors in their old order, then what is new. */
  function NextModels(local: seq<string>, choice: Choice): seq<string> {
    Filter(Normalize(local + choice.add), x => x !in choice.remove)
  }

  function RemainingAdd(row: Row, choice: Choice): seq<string> {
    Filter(Normalize(row.detected), x => x !in choice.add && x !in choice.ignore)
  }

  function RemainingRemove(row: Row, choice: Choice): seq<string> {
    Filter(Normalize(row.removed), x => x !in choice.remove)
  }

  function NextIgnored(row: Row, choice: Choice): seq<string> {
    Filter(Normalize(row.ignored + choice.ignore), x => x !in choice.add)
  }

  function AfterApply(row: Row, choice: Choice, now: int): Row {
    var local := LocalNames(row.models);
    var next := NextModels(local, choice);
    Row(if next != local then Join(next, ',') else row.models,
        NextIgnored(row, choice), RemainingAdd(row, choice), RemainingRemove(row, choice), now)
  }

  lemma ChoiceFacts(row: Row, addInput: seq<string>, ignoreInput: seq<string>, removeInput: seq<string>)
    ensures
      var choice := Choose(row, addInput, ignoreInput, removeInput);
      && Normal(choice.add) && Normal(choice.ignore) && Normal(choice.remove)
      && (forall x :: x in choice.add <==> x in Normalize(addInput) && x in Normalize(row.detected))
      && (forall x :: x in choice.ignore <==> x in Normalize(ignoreInput) && x in Normalize(row.detected))
      && (forall x :: x in choice.remove <==>
            x in Normalize(removeInput) && x in Normalize(row.removed) && x !in choice.add)
  {
    var pendingAdd, pendingRemove := Normalize(row.detected), Normalize(row.removed);
    var add := Filter(Normalize(addInput), x => x in pendingAdd);
    NormalizeIsNormal(addInput);
    NormalizeIsNormal(ignoreInput);
    NormalizeIsNormal(removeInput);
    FilterNormal(Normalize(addInput), x => x in pendingAdd);
    FilterNormal(Normalize(ignoreInput), x => x in pendingAdd);
    FilterNormal(Normalize(removeInput), x => x in pendingRemove && x !in add);
    FilterMembers(Normalize(addInput), x => x in pendingAdd);
    FilterMembers(Normalize(ignoreInput), x => x in pendingAdd);
    FilterMembers(Normalize(removeInput), x => x in pendingRemove && x !in add);
  }

  // ---- The code that updates a stored channel ----

  lemma NameSetOfNormalize(names: seq<string>)
    ensures forall x :: x in NameSet(names) <==> x in Normalize(names)
    ensures Normalize(Normalize(names)) == Normalize(names)
  {
    NormalizeIsNormal(names);
    NormalizeOfNormal(Normalize(names));
    assert forall x :: x in Members(Normalize(names)) <==> x in Normalize(names);
  }

  /** Intersecting with, and subtracting, names goes by their normalised membership. */
  method Intersect(base: seq<string>, allowed: seq<string>) returns (rest: seq<string>)
    ensures rest == Filter(Normalize(base), x => x in Normalize(allowed))
  {
    rest := IntersectModelNames(base, allowed);
    NameSetOfNormalize(allowed);
    FilterSame(Normalize(base), x => x in NameSet(allowed), x => x in Normalize(allowed));
  }

  method Subtract(base: seq<string>, gone: seq<string>) returns (rest: seq<string>)
    ensures rest == Filter(Normalize(base), x => x !in Normalize(gone))
  {
    rest := SubtractModelNames(base, gone);
    NameSetOfNormalize(gone);
    FilterSame(Normalize(base), x => x !in NameSet(gone), x => x !in Normalize(gone));
  }

  /** Adding beats removing: a name in both lists stays or is added. */
  method ApplySelectedModelChanges(origin: seq<string>, add: seq<string>, remove: seq<string>)
    returns (next: seq<string>)
    ensures next == Filter(Normalize(origin + add), x => x in Normalize(add) || x !in Normalize(remove))
  {
    var adds := Normalize(add);
    NameSetOfNormalize(add);
    NameSetOfNormalize(remove);
    var removes := Subtract(Normalize(remove), adds);
    NormalizeIsNormal(remove);
    FilterNormal(Normalize(remove), x => x !in adds);
    FilterMembers(Normalize(remove), x => x !in adds);
    NormalizeOfNormal(removes);
    var merged := MergeModelNames(origin, adds);
    NormalizeConcat(origin, add);
    NormalizeConcat(origin, adds);
    next := Subtract(merged, removes);
    NameSetOfNormalize(origin + add);
    FilterSame(merged, x => x !in Normalize(removes), x => x in Normalize(add) || x !in Normalize(remove));
  }

  /** Selections that are normal and disjoint, as an application makes them. */
  lemma SelectedModels(origin: seq<string>, choice: Choice)
    requires Normal(choice.add) && Normal(choice.remove) && forall x :: x in choice.remove ==> x !in choice.add
    ensures Filter(Normalize(origin + choice.add), x => x in Normalize(choice.add) || x !in Normalize(choice.remove))
            == NextModels(origin, choice)
  {
    NormalizeOfNormal(choice.add);
    NormalizeOfNormal(choice.remove);
    FilterSame(Normalize(origin + choice.add), x => x in Normalize(choice.add) || x !in Normalize(choice.remove),
               x => x !in choice.remove);
  }

  /** What a successful application reports. */
  datatype Applied = Applied(added: seq<string>, removed: seq<string>, remainingAdd: seq<string>,
                             remainingRemove: seq<string>, modelsChanged: bool)

  class Channel {
    const env: Env
    var models: string
    var ignored: seq<string>
    var detected: seq<string>
    var removed: seq<string>
    var lastCheck: int

    constructor (env: Env, row: Row)
      ensures this.env == env && Stored() == row
    {
      this.env := env;
      models, ignored := row.models, row.ignored;
      detected, removed, lastCheck := row.detected, row.removed, row.lastCheck;
    }

    function Stored(): Row
      reads this
    {
      Row(models, ignored, detected, removed, lastCheck)
    }

    /** Writes the row; a failing database leaves it as it was. */
    method Save(row: Row, saved: bool)
      modifies this
      ensures Stored() == if saved then row else old(Stored())
    {
      if saved {
        models, ignored := row.models, row.ignored;
        detected, removed, lastCheck := row.detected, row.removed, row.lastCheck;
      }
    }

    method CheckAndPersist(upstream: Option<seq<string>>, now: int, minInterval: int, force: bool, autoApply: bool,
                           saved: bool)
      returns (modelsChanged: bool, autoAdded: nat, ok: bool)
      modifies this
      ensures Stored() ==
        if saved && !Throttled(old(Stored()), now, minInterval, force)
        then AfterCheck(env, old(Stored()), upstream, now, autoApply) else old(Stored())
      ensures modelsChanged ==> ok
      ensures ok <==> Throttled(old(Stored()), now, minInterval, force) || (saved && upstream.Some?)
      ensures
        var add := if upstream.Some? then PendingAdd(env, GetModels(old(models)), upstream.value, old(ignored)) else [];
        var syncs := !Throttled(old(Stored()), now, minInterval, force) && autoApply && env.autoSync;
        && autoAdded == (if syncs then |add| else 0)
        && (ok ==> modelsChanged == (syncs && add != []))
    {
      modelsChanged, autoAdded, ok := false, 0, true;
      if !force {
        if lastCheck > 0 && now - lastCheck < minInterval {
          return;
        }
      }
      var row := Stored().(lastCheck := now);
      if upstream.None? {
        Save(row, saved);
        return false, 0, false;
      }
      var local := GetModels(models);
      var add, remove := CollectPendingChanges(env, local, upstream.value, ignored);
      if autoApply && env.autoSync && |add| > 0 {
        var origin := Normalize(local);
        var merged := MergeModelNames(origin, add);
        AutoSyncAppends(env, models, upstream.value, ignored);
        if |merged| > |origin| {
          row := row.(models := Join(merged, ','));
          autoAdded := |merged| - |origin|;
          modelsChanged := true;
        }
        row := row.(detected := []);
      } else {
        row := row.(detected := add);
      }
      row := row.(removed := remove);
      Save(row, saved);
      if !saved {
        return false, autoAdded, false;
      }
    }

    method Apply(addInput: seq<string>, ignoreInput: seq<string>, removeInput: seq<string>, now: int, saved: bool)
      returns (result: Option<Applied>)
      modifies this
      ensures
        var choice := Choose(old(Stored()), addInput, ignoreInput, removeInput);
        && Stored() == (if saved then AfterApply(old(Stored()), choice, now) else old(Stored()))
        && (result.Some? <==> saved)
        && (saved ==> result.value == Applied(
              choice.add, choice.remove, RemainingAdd(old(Stored()), choice), RemainingRemove(old(Stored()), choice),
              NextModels(LocalNames(old(models)), choice) != LocalNames(old(models))))
    {
      ChoiceFacts(Stored(), addInput, ignoreInput, removeInput);
      NormalizeIsNormal(detected);
      NormalizeIsNormal(removed);
      var pendingAdd, pendingRemove := Normalize(detected), Normalize(removed);
      var add := IntersectPending(addInput, pendingAdd);
      var ignore := IntersectPending(ignoreInput, pendingAdd);
      var remove := ChooseRemovals(removeInput, pendingRemove, add);
      var choice := Choice(add, ignore, remove);

      var origin := Normalize(GetModels(models));
      var next := ApplySelectedModelChanges(origin, add, remove);
      SelectedModels(origin, choice);
      var modelsChanged := origin != next;
      var row := Stored();
      if modelsChanged {
        row := row.(models := Join(next, ','));
      }
      var ignored' := UpdateIgnored(ignored, choice);
      var remainingAdd := SubtractBoth(pendingAdd, add, ignore);
      var remainingRemove := Subtract(pendingRemove, remove);
      NormalizeOfNormal(pendingRemove);
      NormalizeOfNormal(remove);
      FilterSame(pendingRemove, x => x !in Normalize(remove), x => x !in remove);
      Save(Row(row.models, ignored', remainingAdd, remainingRemove, now), saved);
      result := if saved then Some(Applied(add, remove, remainingAdd, remainingRemove, modelsChanged)) else None;
    }
  }

  method IntersectPending(input: seq<string>, pending: seq<string>) returns (chosen: seq<string>)
    requires Normal(pending)
    ensures chosen == Filter(Normalize(input), x => x in pending)
  {
    NormalizeOfNormal(pending);
    chosen := Intersect(input, pending);
    FilterSame(Normalize(input), x => x in Normalize(pending), x => x in pending);
  }

  method UpdateIgnored(ignored: seq<string>, choice: Choice) returns (next: seq<string>)
    requires Normal(choice.add)
    ensures next == Filter(Normalize(ignored + choice.ignore), x => x !in choice.add)
  {
    next := MergeModelNames(ignored, choice.ignore);
    NameSetOfNormalize(ignored + choice.ignore);
    NormalizeOfNormal(choice.add);
    if |choice.add| > 0 {
      next := Subtract(next, choice.add);
      FilterSame(Normalize(ignored + choice.ignore), x => x !in Normalize(choice.add), x => x !in choice.add);
    } else {
      FilterAll(next, x => x !in choice.add);
    }
  }

  method ChooseRemovals(removeInput: seq<string>, pendingRemove: seq<string>, add: seq<string>)
    returns (remove: seq<string>)
    requires Normal(pendingRemove) && Normal(add)
    ensures remove == Filter(Normalize(removeInput), x => x in pendingRemove && x !in add)
  {
    NormalizeOfNormal(pendingRemove);
    NormalizeOfNormal(add);
    var chosen := Intersect(removeInput, pendingRemove);
    NormalizeIsNormal(removeInput);
    FilterNormal(Normalize(removeInput), x => x in Normalize(pendingRemove));
    NormalizeOfNormal(chosen);
    remove := Subtract(chosen, add);
    var isPending, isFree := (x: string) => x in Normalize(pendingRemove), (x: string) => x !in Normalize(add);
    FilterTwice(Normalize(removeInput), isPending, isFree);
    FilterSame(Normalize(removeInput), x => isPending(x) && isFree(x), x => x in pendingRemove && x !in add);
  }

  lemma {:induction false} FilterTwice(names: seq<string>, p: string -> bool, q: string -> bool)
    ensures Filter(Filter(names, p), q) == Filter(names, x => p(x) && q(x))
  {
    if names != [] {
      var init, last := names[..|names| - 1], names[|names| - 1];
      FilterTwice(init, p, q);
      var kept := Filter(init, p);
      assert (kept + [last])[..|kept|] == kept;
    }
  }

  method SubtractBoth(base: seq<string>, a: seq<string>, b: seq<string>) returns (rest: seq<string>)
    requires Normal(base) && Normal(a) && Normal(b)
    ensures rest == Filter(base, x => x !in a && x !in b)
  {
    rest := Subtract(base, a + b);
    NormalizeOfNormal(base);
    NormalizeConcat(a, b);
    NormalizeOfNormal(a);
    NormalizeOfNormal(b);
    FilterMembers(b, x => x !in Members(a));
    assert forall x :: x in Normalize(a + b) <==> x in a || x in b;
    FilterSame(base, x => x !in Normalize(a + b), x => x !in a && x !in b);
  }

  /** Automatic syncing appends exactly the pending additions to what is there. */
  lemma AutoSyncAppends(env: Env, models: string, upstream: seq<string>, rules: seq<string>)
    ensures
      var local := GetModels(models);
      var add := PendingAdd(env, local, upstream, rules);
      && Normalize(local + add) == Normalize(local) + add
      && Normalize(Normalize(local) + add) == Normalize(local) + add
  {
    var local := GetModels(models);
    var add := PendingAdd(env, local, upstream, rules);
    PendingNormal(env, local, upstream, rules);
    PendingMembers(env, local, upstream, rules);
    NormalizeIsNormal(local);
    DisjointMerge(Normalize(local), add);
    NormalizeConcat(local, add);
    NormalizeOfNormal(add);
    FilterAll(add, x => x !in Members(Normalize(local)));
  }
}

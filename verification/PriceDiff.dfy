/** Comparing the local price tables with those of several upstream channels: building an
    entry per model and field, marking channels that agree, and pruning. */
module PriceDiff {

  import opened Basics
  import opened PriceSelect

  /** A value of a price table, with numbers already converted. Null is JSON null. */
  datatype Value = Null | Number(x: real) | Text(s: string)

  type Table = map<string, map<string, Value>>       // field, then model

  datatype Channel = Channel(name: string, data: Table)

  datatype Item = Item(current: Value, upstreams: map<string, Value>, confidence: map<string, bool>)

  type Differences = map<string, map<string, Item>>  // model, then field

  const SAME := Text("same")

  predicate ValuesEqual(a: Value, b: Value) {
    if a.Number? && b.Number? then NearlyEqual(a.x, b.x) else a == b
  }

  function Supplied(data: Table, field: string, model: string): Option<Value> {
    if field in data && model in data[field] then Some(data[field][model]) else None
  }

  /** An absent local value counts as null. */
  function LocalValue(local: Table, field: string, model: string): Value {
    var v := Supplied(local, field, model);
    if v.Some? then v.value else Null
  }

  /** What the entry shows for a channel: its value, the mark for agreement, or null. */
  function Shown(current: Value, supplied: Option<Value>): Value {
    var v := if supplied.None? then Null else if ValuesEqual(current, supplied.value) then SAME else supplied.value;
    if v == Null && current == Null then SAME else v
  }

  predicate Differs(current: Value, supplied: Option<Value>) {
    if current == Null then Shown(current, supplied) != SAME
    else supplied.Some? && !ValuesEqual(current, supplied.value)
  }

  /** A channel whose price for a model looks like a placeholder is not trusted. */
  predicate Confident(data: Table, model: string) {
    var ratio, completion := Supplied(data, "model_ratio", model), Supplied(data, "completion_ratio", model);
    !(ratio.Some? && completion.Some? && ratio.value.Number? && completion.value.Number? &&
      NearlyEqual(ratio.value.x, 37.5) && NearlyEqual(completion.value.x, 1.0))
  }

  function UpstreamMap(local: Table, channels: seq<Channel>, model: string, field: string): map<string, Value> {
    if channels == [] then map[]
    else
      var last := channels[|channels| - 1];
      UpstreamMap(local, channels[..|channels| - 1], model, field)
        [last.name := Shown(LocalValue(local, field, model), Supplied(last.data, field, model))]
  }

  function ConfidenceMap(channels: seq<Channel>, model: string): map<string, bool> {
    if channels == [] then map[]
    else
      var last := channels[|channels| - 1];
      ConfidenceMap(channels[..|channels| - 1], model)[last.name := Confident(last.data, model)]
  }

  function FullItem(local: Table, channels: seq<Channel>, model: string, field: string): Item {
    Item(LocalValue(local, field, model), UpstreamMap(local, channels, model, field), ConfidenceMap(channels, model))
  }

  /** Whether an entry is made at first. */
  ghost predicate Included(local: Table, channels: seq<Channel>, model: string, field: string) {
    var current := LocalValue(local, field, model);
    if current == Null then AnySupplied(channels, |channels|, model, field)
    else AnyDiffers(current, channels, |channels|, model, field)
  }

  // ---- Entries of one model ----

  lemma MapsNext(local: Table, channels: seq<Channel>, model: string, field: string, i: nat)
    requires i < |channels|
    ensures
      var c := channels[i];
      && UpstreamMap(local, channels[..i + 1], model, field) ==
         UpstreamMap(local, channels[..i], model, field)
           [c.name := Shown(LocalValue(local, field, model), Supplied(c.data, field, model))]
      && ConfidenceMap(channels[..i + 1], model) ==
         ConfidenceMap(channels[..i], model)[c.name := Confident(c.data, model)]
  {
    assert channels[..i + 1][..i] == channels[..i];
  }

  ghost predicate AnySupplied(channels: seq<Channel>, n: nat, model: string, field: string)
    requires n <= |channels|
  {
    exists j :: 0 <= j < n && Supplied(channels[j].data, field, model).Some?
  }

  ghost predicate AnyDiffers(current: Value, channels: seq<Channel>, n: nat, model: string, field: string)
    requires n <= |channels|
  {
    exists j :: 0 <= j < n && Differs(current, Supplied(channels[j].data, field, model))
  }

  lemma AnyNext(current: Value, channels: seq<Channel>, n: nat, model: string, field: string)
    requires n < |channels|
    ensures AnySupplied(channels, n + 1, model, field) <==>
            AnySupplied(channels, n, model, field) || Supplied(channels[n].data, field, model).Some?
    ensures AnyDiffers(current, channels, n + 1, model, field) <==>
            AnyDiffers(current, channels, n, model, field) || Differs(current, Supplied(channels[n].data, field, model))
  {
  }

  method Compare(current: Value, supplied: Option<Value>) returns (upstream: Value, differs: bool)
    ensures upstream == Shown(current, supplied) && differs == Differs(current, supplied)
  {
    upstream, differs := Null, false;
    if supplied.Some? {
      upstream := supplied.value;
      if current != Null && !ValuesEqual(current, upstream) {
        differs := true;
      } else if ValuesEqual(current, upstream) {
        upstream := SAME;
      }
    }
    if upstream == Null && current == Null {
      upstream := SAME;
    }
    if current == Null && upstream != Null && upstream != SAME {
      differs := true;
    }
  }

  method BuildItem(local: Table, channels: seq<Channel>, model: string, field: string)
    returns (item: Item, wanted: bool)
    ensures item == FullItem(local, channels, model, field)
    ensures wanted <==> Included(local, channels, model, field)
  {
    var current := LocalValue(local, field, model);
    var upstreams: map<string, Value>, confidence: map<string, bool> := map[], map[];
    var hasUpstream, hasDifference := false, false;
    for i := 0 to |channels|
      invariant upstreams == UpstreamMap(local, channels[..i], model, field)
      invariant confidence == ConfidenceMap(channels[..i], model)
      invariant hasUpstream <==> AnySupplied(channels, i, model, field)
      invariant hasDifference <==> AnyDiffers(current, channels, i, model, field)
    {
      MapsNext(local, channels, model, field, i);
      AnyNext(current, channels, i, model, field);
      var channel := channels[i];
      var supplied := Supplied(channel.data, field, model);
      if supplied.Some? {
        hasUpstream := true;
      }
      var upstream, differs := Compare(current, supplied);
      if differs {
        hasDifference := true;
      }
      upstreams := upstreams[channel.name := upstream];
      confidence := confidence[channel.name := Confident(channel.data, model)];
    }
    assert channels[..|channels|] == channels;
    wanted := false;
    if current != Null {
      if hasDifference {
        wanted := true;
      }
    } else {
      if hasUpstream {
        wanted := true;
      }
    }
    item := Item(current, upstreams, confidence);
  }

  ghost predicate RowExact(fields: seq<string>, local: Table, channels: seq<Channel>, model: string,
                           row: map<string, Item>) {
    && (forall f :: f in row <==> f in fields && Included(local, channels, model, f))
    && (forall f :: f in row ==> row[f] == FullItem(local, channels, model, f))
  }

  method BuildRow(fields: seq<string>, local: Table, channels: seq<Channel>, model: string)
    returns (row: map<string, Item>)
    ensures RowExact(fields, local, channels, model, row)
  {
    row := map[];
    for i := 0 to |fields|
      invariant forall f :: f in row <==> f in fields[..i] && Included(local, channels, model, f)
      invariant forall f :: f in row ==> row[f] == FullItem(local, channels, model, f)
    {
      var item, wanted := BuildItem(local, channels, model, fields[i]);
      if wanted {
        row := row[fields[i] := item];
      }
    }
    assert fields[..|fields|] == fields;
  }

  // ---- Pruning ----

  predicate IsDifference(v: Value) { v != Null && v != SAME }

  function Restrict(item: Item, names: set<string>): Item {
    Item(item.current, map n | n in item.upstreams && n in names :: item.upstreams[n],
         map n | n in item.confidence && n in names :: item.confidence[n])
  }

  predicate AllSame(item: Item) {
    forall n :: n in item.upstreams ==> item.upstreams[n] == SAME
  }

  ghost predicate RowShows(row: map<string, Item>, name: string) {
    exists f :: f in row && name in row[f].upstreams && IsDifference(row[f].upstreams[name])
  }

  method DiffNames(row: map<string, Item>) returns (names: set<string>)
    ensures forall n :: n in names <==> RowShows(row, n)
  {
    names := {};
    var rest := row.Keys;
    while rest != {}
      invariant rest <= row.Keys
      invariant forall n :: n in names <==>
        exists f :: f in row && f !in rest && n in row[f].upstreams && IsDifference(row[f].upstreams[n])
      decreases rest
    {
      var f :| f in rest;
      var item := row[f];
      ghost var before := names;
      var keys := item.upstreams.Keys;
      while keys != {}
        invariant keys <= item.upstreams.Keys
        invariant forall n :: n in names <==>
          n in before || (n in item.upstreams && n !in keys && IsDifference(item.upstreams[n]))
        decreases keys
      {
        var n :| n in keys;
        keys := keys - {n};
        if item.upstreams[n] != Null && item.upstreams[n] != SAME {
          names := names + {n};
        }
      }
      rest := rest - {f};
    }
  }

  ghost predicate RowPruned(row: map<string, Item>, names: set<string>, pruned: map<string, Item>) {
    && (forall f :: f in pruned <==> f in row && !AllSame(Restrict(row[f], names)))
    && (forall f :: f in pruned ==> pruned[f] == Restrict(row[f], names))
  }

  method PruneRow(row: map<string, Item>, names: set<string>) returns (pruned: map<string, Item>)
    ensures RowPruned(row, names, pruned)
  {
    pruned := map[];
    var rest := row.Keys;
    while rest != {}
      invariant rest <= row.Keys
      invariant forall f :: f in pruned <==> f in row && f !in rest && !AllSame(Restrict(row[f], names))
      invariant forall f :: f in pruned ==> pruned[f] == Restrict(row[f], names)
      decreases rest
    {
      var f :| f in rest;
      rest := rest - {f};
      var item := Restrict(row[f], names);
      if !(item.upstreams == map[] || AllSame(item)) {
        pruned := pruned[f := item];
      }
    }
  }

  // ---- The whole comparison ----

  ghost predicate Mentioned(fields: seq<string>, data: Table, model: string) {
    exists i :: 0 <= i < |fields| && Supplied(data, fields[i], model).Some?
  }

  method ModelsOf(fields: seq<string>, data: Table) returns (models: set<string>)
    ensures forall m :: m in models <==> Mentioned(fields, data, m)
  {
    models := {};
    for i := 0 to |fields|
      invariant forall m :: m in models <==> exists j :: 0 <= j < i && Supplied(data, fields[j], m).Some?
    {
      ghost var before := models;
      if fields[i] in data {
        models := models + data[fields[i]].Keys;
      }
      assert forall m :: m in models <==> m in before || Supplied(data, fields[i], m).Some?;
    }
  }

  method AllModels(fields: seq<string>, local: Table, channels: seq<Channel>) returns (models: set<string>)
    ensures forall m :: m in models <==>
      Mentioned(fields, local, m) || exists i :: 0 <= i < |channels| && Mentioned(fields, channels[i].data, m)
  {
    models := ModelsOf(fields, local);
    for i := 0 to |channels|
      invariant forall m :: m in models <==>
        Mentioned(fields, local, m) || exists j :: 0 <= j < i && Mentioned(fields, channels[j].data, m)
    {
      var more := ModelsOf(fields, channels[i].data);
      models := models + more;
    }
  }

  /** A channel with a difference in some entry made at first. */
  ghost predicate Active(fields: seq<string>, local: Table, channels: seq<Channel>, name: string) {
    exists m, f :: f in fields && Included(local, channels, m, f) && ShowsDifference(local, channels, m, f, name)
  }

  predicate ShowsDifference(local: Table, channels: seq<Channel>, model: string, field: string, name: string) {
    var upstreams := UpstreamMap(local, channels, model, field);
    name in upstreams && IsDifference(upstreams[name])
  }

  /** An entry stays if some channel that stays does not agree there. */
  ghost predicate Survives(fields: seq<string>, local: Table, channels: seq<Channel>, model: string, field: string) {
    var upstreams := UpstreamMap(local, channels, model, field);
    exists n :: n in upstreams && Active(fields, local, channels, n) && upstreams[n] != SAME
  }

  predicate Has(diff: Differences, model: string, field: string) {
    model in diff && field in diff[model]
  }

  ghost predicate RowsExact(fields: seq<string>, local: Table, channels: seq<Channel>, rows: Differences) {
    && (forall m :: m in rows ==> RowExact(fields, local, channels, m, rows[m]))
    && (forall m, f :: f in fields && Included(local, channels, m, f) ==> m in rows)
  }

  method BuildRows(fields: seq<string>, local: Table, channels: seq<Channel>) returns (rows: Differences)
    ensures RowsExact(fields, local, channels, rows)
  {
    var models := AllModels(fields, local, channels);
    rows := map[];
    var rest := models;
    while rest != {}
      invariant rest <= models
      invariant forall m :: m in rows ==> RowExact(fields, local, channels, m, rows[m])
      invariant forall m :: m in models && m !in rest && m !in rows ==> RowExact(fields, local, channels, m, map[])
      decreases rest
    {
      var m :| m in rest;
      var row := BuildRow(fields, local, channels, m);
      rest := rest - {m};
      if row != map[] {
        rows := rows[m := row];
      }
    }
    forall m, f | f in fields && Included(local, channels, m, f)
      ensures m in rows
    {
      IncludedMentioned(fields, local, channels, m, f);
      assert m !in rows ==> RowExact(fields, local, channels, m, map[]);
    }
  }

  lemma IncludedMentioned(fields: seq<string>, local: Table, channels: seq<Channel>, m: string, f: string)
    requires f in fields && Included(local, channels, m, f)
    ensures exists i :: 0 <= i < |channels| && Mentioned(fields, channels[i].data, m)
  {
    var i :| 0 <= i < |channels| && Supplied(channels[i].data, f, m).Some?;
    var k :| 0 <= k < |fields| && fields[k] == f;
    assert Mentioned(fields, channels[i].data, m);
  }

  method ActiveNames(rows: Differences) returns (names: set<string>)
    ensures forall n :: n in names <==> exists m :: m in rows && RowShows(rows[m], n)
  {
    names := {};
    var rest := rows.Keys;
    while rest != {}
      invariant rest <= rows.Keys
      invariant forall n :: n in names <==> exists m :: m in rows && m !in rest && RowShows(rows[m], n)
      decreases rest
    {
      var m :| m in rest;
      var more := DiffNames(rows[m]);
      rest := rest - {m};
      names := names + more;
    }
  }

  method PruneRows(rows: Differences, names: set<string>) returns (diff: Differences)
    ensures forall m :: m in diff ==> m in rows && diff[m] != map[] && RowPruned(rows[m], names, diff[m])
    ensures forall m :: m in rows && m !in diff ==> RowPruned(rows[m], names, map[])
  {
    diff := map[];
    var rest := rows.Keys;
    while rest != {}
      invariant rest <= rows.Keys
      invariant forall m :: m in diff ==> m in rows && diff[m] != map[] && RowPruned(rows[m], names, diff[m])
      invariant forall m :: m in rows && m !in diff && m !in rest ==> RowPruned(rows[m], names, map[])
      decreases rest
    {
      var m :| m in rest;
      rest := rest - {m};
      var row := PruneRow(rows[m], names);
      if row != map[] {
        diff := diff[m := row];
      }
    }
  }

  /** What an entry shows: for exactly the active channels, their value and whether it is
      trusted. */
  ghost predicate ItemExact(fields: seq<string>, local: Table, channels: seq<Channel>, item: Item,
                            m: string, f: string) {
    var upstreams, confidence := UpstreamMap(local, channels, m, f), ConfidenceMap(channels, m);
    && item.current == LocalValue(local, f, m)
    && (forall n :: n in item.upstreams <==> n in upstreams && Active(fields, local, channels, n))
    && (forall n :: n in item.upstreams ==> n in upstreams && item.upstreams[n] == upstreams[n])
    && (forall n :: n in item.confidence <==> n in item.upstreams)
    && (forall n :: n in item.confidence ==> n in confidence && item.confidence[n] == confidence[n])
  }

  /** The result has an entry for exactly the surviving ones. */
  ghost predicate EntryExact(fields: seq<string>, local: Table, channels: seq<Channel>, diff: Differences,
                             m: string, f: string) {
    && (Has(diff, m, f) <==> f in fields && Included(local, channels, m, f) && Survives(fields, local, channels, m, f))
    && (Has(diff, m, f) ==> ItemExact(fields, local, channels, diff[m][f], m, f))
  }

  method BuildDifferences(fields: seq<string>, local: Table, channels: seq<Channel>) returns (diff: Differences)
    ensures forall m, f :: EntryExact(fields, local, channels, diff, m, f)
    ensures forall m :: m in diff ==> diff[m] != map[]
  {
    var rows := BuildRows(fields, local, channels);
    var names := ActiveNames(rows);
    forall n
      ensures n in names <==> Active(fields, local, channels, n)
    {
      NamesAreActive(fields, local, channels, rows, n);
    }
    diff := PruneRows(rows, names);
    forall m, f
      ensures EntryExact(fields, local, channels, diff, m, f)
    {
      PrunedIsExact(fields, local, channels, rows, names, diff, m, f);
    }
  }

  lemma ActiveIsShown(fields: seq<string>, local: Table, channels: seq<Channel>, rows: Differences, n: string)
    requires RowsExact(fields, local, channels, rows) && Active(fields, local, channels, n)
    ensures exists m :: m in rows && RowShows(rows[m], n)
  {
    var m, f :| f in fields && Included(local, channels, m, f) && ShowsDifference(local, channels, m, f, n);
    assert m in rows;
    var row := rows[m];
    assert RowExact(fields, local, channels, m, row);
    assert f in row && row[f] == FullItem(local, channels, m, f);
    assert RowShows(row, n);
  }

  lemma ShownIsActive(fields: seq<string>, local: Table, channels: seq<Channel>, rows: Differences, m: string,
                      n: string)
    requires RowsExact(fields, local, channels, rows) && m in rows && RowShows(rows[m], n)
    ensures Active(fields, local, channels, n)
  {
    var row := rows[m];
    assert RowExact(fields, local, channels, m, row);
    var f :| f in row && n in row[f].upstreams && IsDifference(row[f].upstreams[n]);
    assert row[f] == FullItem(local, channels, m, f);
    assert ShowsDifference(local, channels, m, f, n);
  }

  lemma NamesAreActive(fields: seq<string>, local: Table, channels: seq<Channel>, rows: Differences, n: string)
    requires RowsExact(fields, local, channels, rows)
    ensures Active(fields, local, channels, n) <==> exists m :: m in rows && RowShows(rows[m], n)
  {
    if Active(fields, local, channels, n) {
      ActiveIsShown(fields, local, channels, rows, n);
    }
    if m :| m in rows && RowShows(rows[m], n) {
      ShownIsActive(fields, local, channels, rows, m, n);
    }
  }

  lemma {:induction false} SameNames(local: Table, channels: seq<Channel>, m: string, f: string, n: string)
    ensures n in UpstreamMap(local, channels, m, f) <==> n in ConfidenceMap(channels, m)
  {
    if channels != [] {
      SameNames(local, channels[..|channels| - 1], m, f, n);
    }
  }

  lemma RestrictedIsExact(fields: seq<string>, local: Table, channels: seq<Channel>, names: set<string>,
                          m: string, f: string)
    requires forall n :: n in names <==> Active(fields, local, channels, n)
    ensures ItemExact(fields, local, channels, Restrict(FullItem(local, channels, m, f), names), m, f)
  {
    forall n {
      SameNames(local, channels, m, f, n);
    }
  }

  lemma PrunedIsExact(fields: seq<string>, local: Table, channels: seq<Channel>, rows: Differences, names: set<string>,
                      diff: Differences, m: string, f: string)
    requires RowsExact(fields, local, channels, rows)
    requires forall n :: n in names <==> Active(fields, local, channels, n)
    requires m in diff ==> m in rows && RowPruned(rows[m], names, diff[m])
    requires m in rows && m !in diff ==> RowPruned(rows[m], names, map[])
    ensures EntryExact(fields, local, channels, diff, m, f)
  {
    if m in rows {
      assert RowExact(fields, local, channels, m, rows[m]);
      if f in rows[m] {
        SurvivesIff(fields, local, channels, m, f, names);
        RestrictedIsExact(fields, local, channels, names, m, f);
      }
    }
  }

  lemma SurvivesIff(fields: seq<string>, local: Table, channels: seq<Channel>, m: string, f: string,
                    names: set<string>)
    requires forall n :: n in names <==> Active(fields, local, channels, n)
    ensures Survives(fields, local, channels, m, f) <==> !AllSame(Restrict(FullItem(local, channels, m, f), names))
  {
    var item, upstreams := Restrict(FullItem(local, channels, m, f), names), UpstreamMap(local, channels, m, f);
    if Survives(fields, local, channels, m, f) {
      var n :| n in upstreams && Active(fields, local, channels, n) && upstreams[n] != SAME;
      assert n in item.upstreams && item.upstreams[n] != SAME;
    }
    if !AllSame(item) {
      var n :| n in item.upstreams && item.upstreams[n] != SAME;
      assert n in upstreams && Active(fields, local, channels, n) && upstreams[n] != SAME;
    }
  }

  // ---- Which differences are reported ----

  ghost predicate DistinctNames(channels: seq<Channel>) {
    forall i, j :: 0 <= i < j < |channels| ==> channels[i].name != channels[j].name
  }

  /** The channel supplies a value that is absent locally or not nearly equal. */
  predicate RealDiff(local: Table, c: Channel, model: string, field: string) {
    var v, current := Supplied(c.data, field, model), LocalValue(local, field, model);
    v.Some? && IsDifference(v.value) && (current == Null || !ValuesEqual(current, v.value))
  }

  ghost predicate AnyRealDiff(local: Table, channels: seq<Channel>, model: string, field: string) {
    exists i :: 0 <= i < |channels| && RealDiff(local, channels[i], model, field)
  }

  ghost predicate DiffersSomewhere(fields: seq<string>, local: Table, c: Channel) {
    exists m, f :: f in fields && RealDiff(local, c, m, f)
  }

  lemma ShownDiffIsReal(local: Table, c: Channel, m: string, f: string)
    ensures IsDifference(Shown(LocalValue(local, f, m), Supplied(c.data, f, m))) <==> RealDiff(local, c, m, f)
    ensures RealDiff(local, c, m, f) ==>
              Shown(LocalValue(local, f, m), Supplied(c.data, f, m)) == Supplied(c.data, f, m).value
  {
  }

  lemma {:induction false} UpstreamAt(local: Table, channels: seq<Channel>, m: string, f: string, i: nat)
    requires DistinctNames(channels) && i < |channels|
    ensures channels[i].name in UpstreamMap(local, channels, m, f)
    ensures UpstreamMap(local, channels, m, f)[channels[i].name]
            == Shown(LocalValue(local, f, m), Supplied(channels[i].data, f, m))
  {
    if i < |channels| - 1 {
      UpstreamAt(local, channels[..|channels| - 1], m, f, i);
    }
  }

  lemma {:induction false} UpstreamNames(local: Table, channels: seq<Channel>, m: string, f: string, n: string)
    requires n in UpstreamMap(local, channels, m, f)
    ensures exists i :: 0 <= i < |channels| && channels[i].name == n
  {
    var k := |channels| - 1;
    if channels[k].name != n {
      UpstreamNames(local, channels[..k], m, f, n);
      var i :| 0 <= i < k && channels[..k][i].name == n;
      assert channels[i].name == n;
    }
  }

  lemma RealDiffIncluded(local: Table, channels: seq<Channel>, m: string, f: string, i: nat)
    requires i < |channels| && RealDiff(local, channels[i], m, f)
    ensures Included(local, channels, m, f)
  {
    assert Supplied(channels[i].data, f, m).Some?;
    assert LocalValue(local, f, m) != Null ==> Differs(LocalValue(local, f, m), Supplied(channels[i].data, f, m));
  }

  /** The channels listed are exactly those with a real difference somewhere. */
  lemma ActiveIff(fields: seq<string>, local: Table, channels: seq<Channel>, i: nat)
    requires DistinctNames(channels) && i < |channels|
    ensures Active(fields, local, channels, channels[i].name) <==> DiffersSomewhere(fields, local, channels[i])
  {
    var n := channels[i].name;
    if Active(fields, local, channels, n) {
      var m, f :| f in fields && Included(local, channels, m, f) && ShowsDifference(local, channels, m, f, n);
      UpstreamAt(local, channels, m, f, i);
      ShownDiffIsReal(local, channels[i], m, f);
    }
    if DiffersSomewhere(fields, local, channels[i]) {
      var m, f :| f in fields && RealDiff(local, channels[i], m, f);
      UpstreamAt(local, channels, m, f, i);
      ShownDiffIsReal(local, channels[i], m, f);
      RealDiffIncluded(local, channels, m, f, i);
      assert ShowsDifference(local, channels, m, f, n);
    }
  }

  /** An entry without a real difference: a channel supplies null, or a value that reads as
      the mark for agreement, against a local value, and a channel that differs elsewhere
      has nothing to show here. */
  ghost predicate Artefact(fields: seq<string>, local: Table, channels: seq<Channel>, m: string, f: string) {
    var current := LocalValue(local, f, m);
    && current != Null
    && (exists i :: 0 <= i < |channels| && Differs(current, Supplied(channels[i].data, f, m)) &&
                    !RealDiff(local, channels[i], m, f))
    && (exists j :: 0 <= j < |channels| && DiffersSomewhere(fields, local, channels[j]) &&
                    Shown(current, Supplied(channels[j].data, f, m)) == Null)
  }

  lemma RealDiffReported(fields: seq<string>, local: Table, channels: seq<Channel>, m: string, f: string, i: nat)
    requires DistinctNames(channels) && f in fields && i < |channels| && RealDiff(local, channels[i], m, f)
    ensures Included(local, channels, m, f) && Survives(fields, local, channels, m, f)
  {
    RealDiffIncluded(local, channels, m, f, i);
    UpstreamAt(local, channels, m, f, i);
    ShownDiffIsReal(local, channels[i], m, f);
    ActiveIff(fields, local, channels, i);
    assert channels[i].name in UpstreamMap(local, channels, m, f);
  }

  lemma ArtefactReported(fields: seq<string>, local: Table, channels: seq<Channel>, m: string, f: string)
    requires DistinctNames(channels) && f in fields && Artefact(fields, local, channels, m, f)
    ensures Included(local, channels, m, f) && Survives(fields, local, channels, m, f)
  {
    var j :| 0 <= j < |channels| && DiffersSomewhere(fields, local, channels[j]) &&
             Shown(LocalValue(local, f, m), Supplied(channels[j].data, f, m)) == Null;
    UpstreamAt(local, channels, m, f, j);
    ActiveIff(fields, local, channels, j);
    assert channels[j].name in UpstreamMap(local, channels, m, f);
  }

  lemma ReportedIsReal(fields: seq<string>, local: Table, channels: seq<Channel>, m: string, f: string)
    requires DistinctNames(channels) && Included(local, channels, m, f) && Survives(fields, local, channels, m, f)
    ensures AnyRealDiff(local, channels, m, f) || Artefact(fields, local, channels, m, f)
  {
    var upstreams, current := UpstreamMap(local, channels, m, f), LocalValue(local, f, m);
    var n :| n in upstreams && Active(fields, local, channels, n) && upstreams[n] != SAME;
    UpstreamNames(local, channels, m, f, n);
    var j :| 0 <= j < |channels| && channels[j].name == n;
    UpstreamAt(local, channels, m, f, j);
    ActiveIff(fields, local, channels, j);
    ShownDiffIsReal(local, channels[j], m, f);
    if upstreams[n] == Null {
      var i :| 0 <= i < |channels| && Differs(current, Supplied(channels[i].data, f, m));
      assert RealDiff(local, channels[i], m, f) || Artefact(fields, local, channels, m, f);
    }
  }

  /** For all inputs with distinct channel names: an entry is reported exactly when some
      channel really differs there, or as an artefact. Pruning never drops a real difference. */
  lemma ReportedIff(fields: seq<string>, local: Table, channels: seq<Channel>, m: string, f: string)
    requires DistinctNames(channels) && f in fields
    ensures Included(local, channels, m, f) && Survives(fields, local, channels, m, f) <==>
            AnyRealDiff(local, channels, m, f) || Artefact(fields, local, channels, m, f)
  {
    if i :| 0 <= i < |channels| && RealDiff(local, channels[i], m, f) {
      RealDiffReported(fields, local, channels, m, f, i);
    } else if Artefact(fields, local, channels, m, f) {
      ArtefactReported(fields, local, channels, m, f);
    } else if Included(local, channels, m, f) && Survives(fields, local, channels, m, f) {
      ReportedIsReal(fields, local, channels, m, f);
    }
  }

  /** No channel supplies null or the literal mark. */
  ghost predicate PlainValues(fields: seq<string>, channels: seq<Channel>) {
    forall i, m, f :: 0 <= i < |channels| && f in fields && Supplied(channels[i].data, f, m).Some? ==>
      IsDifference(Supplied(channels[i].data, f, m).value)
  }

  /** Then the report is sound and complete. */
  lemma PlainReportIff(fields: seq<string>, local: Table, channels: seq<Channel>, m: string, f: string)
    requires DistinctNames(channels) && PlainValues(fields, channels) && f in fields
    ensures Included(local, channels, m, f) && Survives(fields, local, channels, m, f) <==>
            AnyRealDiff(local, channels, m, f)
  {
    ReportedIff(fields, local, channels, m, f);
  }

  /** What a report that meets its specification says: it has an entry exactly for the real
      differences and the artefacts, and an entry names a channel exactly when that channel
      really differs somewhere. */
  lemma DifferencesIff(fields: seq<string>, local: Table, channels: seq<Channel>, diff: Differences,
                       m: string, f: string)
    requires DistinctNames(channels) && EntryExact(fields, local, channels, diff, m, f)
    ensures Has(diff, m, f) <==>
            f in fields && (AnyRealDiff(local, channels, m, f) || Artefact(fields, local, channels, m, f))
    ensures Has(diff, m, f) && PlainValues(fields, channels) ==> AnyRealDiff(local, channels, m, f)
    ensures Has(diff, m, f) ==> forall i :: 0 <= i < |channels| ==>
              (channels[i].name in diff[m][f].upstreams <==> DiffersSomewhere(fields, local, channels[i]))
  {
    if f in fields {
      ReportedIff(fields, local, channels, m, f);
    }
    if Has(diff, m, f) {
      forall i | 0 <= i < |channels|
        ensures channels[i].name in diff[m][f].upstreams <==> DiffersSomewhere(fields, local, channels[i])
      {
        ActiveIff(fields, local, channels, i);
        UpstreamAt(local, channels, m, f, i);
      }
      if PlainValues(fields, channels) {
        PlainReportIff(fields, local, channels, m, f);
      }
    }
  }

  /** Null is the smallest artefact: a channel that lists a null price for one model and a
      new price for another gets an entry for the first, though it differs only on the second. */
  lemma NullExample()
    ensures
      var local: Table := map["p" := map["m" := Number(1.0)]];
      var channels := [Channel("a", map["p" := map["m" := Null, "k" := Number(2.0)]])];
      && Included(local, channels, "m", "p") && Survives(["p"], local, channels, "m", "p")
      && !RealDiff(local, channels[0], "m", "p")
  {
    var local: Table := map["p" := map["m" := Number(1.0)]];
    var c := Channel("a", map["p" := map["m" := Null, "k" := Number(2.0)]]);
    assert LocalValue(local, "p", "k") == Null && RealDiff(local, c, "k", "p");
    assert DiffersSomewhere(["p"], local, c);
    assert [c][0] == c && Artefact(["p"], local, [c], "m", "p");
    ArtefactReported(["p"], local, [c], "m", "p");
  }
}

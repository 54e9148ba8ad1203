/** Channels with several keys. The keys live in one text; per-key state lives in sparse maps
    from key index to status, disabling time and reason, and is re-indexed on deletion.
    The specification is a plain list of records. Decoding a JSON array is uninterpreted. */
module MultiKey {

  import opened Basics
  import opened Names

  const ENABLED := 1
  const MANUALLY_DISABLED := 2
  const AUTO_DISABLED := 3

  datatype Record = Record(key: string, status: int, time: int, reason: string)

  datatype Info = Info(status: map<int, int>, time: map<int, int>, reason: map<int, string>)

  function StatusAt(info: Info, i: int): int { if i in info.status then info.status[i] else ENABLED }
  function TimeAt(info: Info, i: int): int { if i in info.time then info.time[i] else 0 }
  function ReasonAt(info: Info, i: int): string { if i in info.reason then info.reason[i] else "" }

  function RecordAt(keys: seq<string>, info: Info, i: nat): Record
    requires i < |keys|
  {
    Record(keys[i], StatusAt(info, i), TimeAt(info, i), ReasonAt(info, i))
  }

  /** The list of records that a key list and its sparse maps stand for. */
  function Assemble(keys: seq<string>, info: Info): seq<Record> {
    seq(|keys|, i requires 0 <= i < |keys| => RecordAt(keys, info, i))
  }

  /** Entries only for existing keys; a time or a reason only for a disabled one. */
  ghost predicate Tidy(info: Info, size: int) {
    && (forall i :: i in info.status ==> 0 <= i < size)
    && (forall i :: i in info.time ==> 0 <= i < size && StatusAt(info, i) != ENABLED)
    && (forall i :: i in info.reason ==> 0 <= i < size && StatusAt(info, i) != ENABLED)
  }

  // ---- The text that holds the keys ----

  type Decoder = string -> Option<seq<string>>

  predicate LooksLikeArray(text: string) {
    "[" <= TrimSpace(text)
  }

  function GetKeys(decode: Decoder, text: string): seq<string> {
    if text == "" then []
    else if LooksLikeArray(text) && decode(TrimSpace(text)).Some? then decode(TrimSpace(text)).value
    else Split(TrimChar(text, '\n'), '\n')
  }

  /** The number of keys that saving a channel records; an empty array counts as a line. */
  function CountKeys(decode: Decoder, text: string): nat {
    if text != "" && GetKeys(decode, text) == [] then |Split(TrimChar(text, '\n'), '\n')|
    else |GetKeys(decode, text)|
  }

  predicate IsArray(decode: Decoder, text: string) {
    LooksLikeArray(text) && decode(TrimSpace(text)).Some?
  }

  /** Keys that survive being written one per line: no key contains a line break, and the
      first and the last are not blank. */
  ghost predicate LineSafe(keys: seq<string>) {
    && keys != []
    && (forall i :: 0 <= i < |keys| ==> '\n' !in keys[i])
    && keys[0] != "" && keys[|keys| - 1] != ""
  }

  lemma {:induction false} JoinEnds(keys: seq<string>, sep: char)
    requires keys != [] && keys[0] != "" && keys[|keys| - 1] != ""
    ensures Join(keys, sep) != "" && Join(keys, sep)[0] == keys[0][0]
    ensures Join(keys, sep)[|Join(keys, sep)| - 1] == keys[|keys| - 1][|keys[|keys| - 1]| - 1]
  {
    if |keys| > 1 {
      JoinStarts(keys[..|keys| - 1], sep);
    }
  }

  lemma {:induction false} JoinStarts(keys: seq<string>, sep: char)
    requires keys != [] && keys[0] != ""
    ensures Join(keys, sep) != "" && Join(keys, sep)[0] == keys[0][0]
  {
    if |keys| > 1 {
      JoinStarts(keys[..|keys| - 1], sep);
    }
  }

  lemma {:induction false} SplitEnds(s: string, sep: char)
    requires s != ""
    ensures s[0] != sep ==> Split(s, sep)[0] != ""
    ensures s[|s| - 1] != sep ==> Split(s, sep)[|Split(s, sep)| - 1] != ""
  {
    if |s| > 1 {
      SplitEnds(s[..|s| - 1], sep);
    } else {
      assert s[..0] == "";
    }
  }

  lemma TrimCharEnds(s: string, sep: char)
    ensures TrimChar(s, sep) != "" ==> TrimChar(s, sep)[0] != sep && TrimChar(s, sep)[|TrimChar(s, sep)| - 1] != sep
    decreases |s|
  {
  }

  /** Keys that read back unchanged after being written one per line: line-safe ones, or
      ones whose text happens to be an array of just these keys. */
  ghost predicate Survives(decode: Decoder, keys: seq<string>) {
    var text := Join(keys, '\n');
    if IsArray(decode, text) then decode(TrimSpace(text)).value == keys else LineSafe(keys)
  }

  lemma LinesSurviveIff(decode: Decoder, keys: seq<string>)
    requires keys != [] && !IsArray(decode, Join(keys, '\n'))
    ensures GetKeys(decode, Join(keys, '\n')) == keys <==> LineSafe(keys)
  {
    var text := Join(keys, '\n');
    if LineSafe(keys) {
      JoinEnds(keys, '\n');
      assert text[0] in keys[0] && text[|text| - 1] in keys[|keys| - 1];
      assert TrimChar(text, '\n') == text;
      SplitJoin(keys, '\n');
      FlatSplitFree(keys, '\n');
    } else if text != "" && GetKeys(decode, text) == keys {
      var core := TrimChar(text, '\n');
      SplitFree(core, '\n');
      TrimCharEnds(text, '\n');
      if core != "" {
        SplitEnds(core, '\n');
      }
    }
  }

  /** Writing keys one per line and reading them back gives the same keys exactly when no
      key contains a line break and the outer ones are not empty or, if the text reads as an
      array, when it is an array of these very keys. */
  lemma KeysSurviveIff(decode: Decoder, keys: seq<string>)
    requires keys != []
    ensures GetKeys(decode, Join(keys, '\n')) == keys <==> Survives(decode, keys)
    ensures Survives(decode, keys) ==> Join(keys, '\n') != ""
  {
    if !IsArray(decode, Join(keys, '\n')) {
      LinesSurviveIff(decode, keys);
    }
  }

  /** Saving drops statuses of keys beyond the last. */
  function WithoutBeyond(info: Info, size: int): Info {
    info.(status := map i | i in info.status && i < size :: info.status[i])
  }

  // ---- Lists of records ----

  function RemoveAt<T>(s: seq<T>, i: int): seq<T>
    requires 0 <= i < |s|
  {
    s[..i] + s[i + 1..]
  }

  function CountStatus(records: seq<Record>, status: int): nat {
    if records == [] then 0
    else CountStatus(records[..|records| - 1], status) + if records[|records| - 1].status == status then 1 else 0
  }

  lemma {:induction false} NoneCounted(records: seq<Record>, status: int)
    requires CountStatus(records, status) == 0
    ensures forall i :: 0 <= i < |records| ==> records[i].status != status
  {
    if records != [] {
      NoneCounted(records[..|records| - 1], status);
    }
  }

  /** Below index `n`, both maps say the same. */
  ghost predicate SameBelow(a: Info, b: Info, n: int) {
    forall j :: 0 <= j < n ==>
      StatusAt(a, j) == StatusAt(b, j) && TimeAt(a, j) == TimeAt(b, j) && ReasonAt(a, j) == ReasonAt(b, j)
  }

  lemma AppendRecord(kept: seq<string>, key: string, into: Info, next: Info)
    requires SameBelow(into, next, |kept|)
    ensures Assemble(kept + [key], next) ==
            Assemble(kept, into) +
            [Record(key, StatusAt(next, |kept|), TimeAt(next, |kept|), ReasonAt(next, |kept|))]
  {
    var before, after := Assemble(kept, into), Assemble(kept + [key], next);
    assert forall j :: 0 <= j < |kept| ==> after[j] == before[j];
  }

  /** Appending a key, with its entries under the next free index, appends its record. */
  method CopyEntries(kept: seq<string>, key: string, info: Info, i: int, into: Info) returns (next: Info)
    requires Tidy(into, |kept|)
    requires i in info.time || i in info.reason ==> StatusAt(info, i) != ENABLED
    ensures Tidy(next, |kept| + 1)
    ensures Assemble(kept + [key], next) ==
            Assemble(kept, into) + [Record(key, StatusAt(info, i), TimeAt(info, i), ReasonAt(info, i))]
  {
    next := into;
    var newIndex := |kept|;
    if i in info.status && info.status[i] != ENABLED {
      next := next.(status := next.status[newIndex := info.status[i]]);
    }
    if i in info.time {
      next := next.(time := next.time[newIndex := info.time[i]]);
    }
    if i in info.reason {
      next := next.(reason := next.reason[newIndex := info.reason[i]]);
    }
    AppendRecord(kept, key, into, next);
  }

  method DropKey(keys: seq<string>, info: Info, gone: int) returns (remaining: seq<string>, moved: Info)
    requires Tidy(info, |keys|) && 0 <= gone < |keys|
    ensures remaining == RemoveAt(keys, gone)
    ensures Tidy(moved, |remaining|) && Assemble(remaining, moved) == RemoveAt(Assemble(keys, info), gone)
  {
    remaining, moved := [], Info(map[], map[], map[]);
    var newIndex := 0;
    ghost var view := Assemble(keys, info);
    for i := 0 to |keys|
      invariant newIndex == |remaining| && Tidy(moved, newIndex)
      invariant remaining == Skipping(keys, gone, i)
      invariant Assemble(remaining, moved) == Skipping(view, gone, i)
    {
      SkippingNext(keys, gone, i);
      SkippingNext(view, gone, i);
      if i == gone {
        continue;
      }
      moved := CopyEntries(remaining, keys[i], info, i, moved);
      remaining := remaining + [keys[i]];
      newIndex := newIndex + 1;
    }
    SkippingAll(keys, gone);
    SkippingAll(view, gone);
  }

  /** The records of the keys that are not automatically disabled. */
  function Kept(records: seq<Record>): seq<Record> {
    if records == [] then []
    else
      var init, last := Kept(records[..|records| - 1]), records[|records| - 1];
      if last.status == AUTO_DISABLED then init else init + [last]
  }

  function KeysOf(records: seq<Record>): seq<string> {
    seq(|records|, i requires 0 <= i < |records| => records[i].key)
  }

  method CopyDisabled(kept: seq<string>, key: string, info: Info, i: int, into: Info) returns (next: Info)
    requires Tidy(into, |kept|)
    requires i in info.time || i in info.reason ==> StatusAt(info, i) != ENABLED
    ensures Tidy(next, |kept| + 1)
    ensures Assemble(kept + [key], next) ==
            Assemble(kept, into) + [Record(key, StatusAt(info, i), TimeAt(info, i), ReasonAt(info, i))]
  {
    next := into;
    var newIndex, status := |kept|, StatusAt(info, i);
    if status != ENABLED {
      next := next.(status := next.status[newIndex := status]);
      if i in info.time {
        next := next.(time := next.time[newIndex := info.time[i]]);
      }
      if i in info.reason {
        next := next.(reason := next.reason[newIndex := info.reason[i]]);
      }
    }
    AppendRecord(kept, key, into, next);
  }

  lemma KeptNext(view: seq<Record>, i: nat)
    requires i < |view|
    ensures Kept(view[..i + 1]) ==
            if view[i].status == AUTO_DISABLED then Kept(view[..i]) else Kept(view[..i]) + [view[i]]
  {
    assert view[..i + 1][..i] == view[..i];
  }

  lemma CountNext(view: seq<Record>, i: nat, status: int)
    requires i < |view|
    ensures CountStatus(view[..i + 1], status) ==
            CountStatus(view[..i], status) + if view[i].status == status then 1 else 0
  {
    assert view[..i + 1][..i] == view[..i];
  }

  method DropAutoDisabled(keys: seq<string>, info: Info) returns (remaining: seq<string>, moved: Info, deleted: nat)
    requires Tidy(info, |keys|)
    ensures Tidy(moved, |remaining|) && Assemble(remaining, moved) == Kept(Assemble(keys, info))
    ensures deleted == CountStatus(Assemble(keys, info), AUTO_DISABLED)
    ensures |remaining| + deleted == |keys|
  {
    remaining, moved, deleted := [], Info(map[], map[], map[]), 0;
    ghost var view := Assemble(keys, info);
    for i := 0 to |keys|
      invariant Tidy(moved, |remaining|) && Assemble(remaining, moved) == Kept(view[..i])
      invariant deleted == CountStatus(view[..i], AUTO_DISABLED)
      invariant |remaining| + deleted == i
    {
      KeptNext(view, i);
      CountNext(view, i, AUTO_DISABLED);
      assert view[i] == Record(keys[i], StatusAt(info, i), TimeAt(info, i), ReasonAt(info, i));
      var status := if i in info.status then info.status[i] else ENABLED;
      if status == AUTO_DISABLED {
        deleted := deleted + 1;
      } else {
        moved := CopyDisabled(remaining, keys[i], info, i, moved);
        remaining := remaining + [keys[i]];
      }
    }
    assert view[..|keys|] == view;
  }

  lemma AssembledKeys(keys: seq<string>, info: Info)
    ensures KeysOf(Assemble(keys, info)) == keys
  {
  }

  /** The first `n` elements without the one at `gone`. */
  ghost function Skipping<T>(s: seq<T>, gone: int, n: int): seq<T>
    requires 0 <= gone < |s| && 0 <= n <= |s|
  {
    if n <= gone then s[..n] else s[..gone] + s[gone + 1..n]
  }

  lemma SkippingNext<T>(s: seq<T>, gone: int, n: int)
    requires 0 <= gone < |s| && 0 <= n < |s|
    ensures Skipping(s, gone, n + 1) == if n == gone then Skipping(s, gone, n) else Skipping(s, gone, n) + [s[n]]
  {
  }

  lemma SkippingAll<T>(s: seq<T>, gone: int)
    requires 0 <= gone < |s|
    ensures Skipping(s, gone, |s|) == RemoveAt(s, gone)
  {
  }

  function Disabled(record: Record): Record {
    if record.status == ENABLED then record.(status := MANUALLY_DISABLED) else record
  }

  /** Indices below `n` that were enabled are manually disabled; others are as before. */
  ghost predicate DisabledBelow(before: map<int, int>, after: map<int, int>, n: int) {
    && (forall j :: j in after ==> j in before || 0 <= j < n)
    && (forall j :: 0 <= j < n ==>
          j in after && after[j] == if j in before && before[j] != ENABLED then before[j] else MANUALLY_DISABLED)
    && (forall j :: j in before && !(0 <= j < n) ==> j in after && after[j] == before[j])
  }

  lemma DisabledRecord(keys: seq<string>, info: Info, status: map<int, int>, i: nat)
    requires i < |keys| && DisabledBelow(info.status, status, |keys|)
    ensures RecordAt(keys, info.(status := status), i) == Disabled(RecordAt(keys, info, i))
  {
  }

  lemma DisabledTidy(info: Info, status: map<int, int>, size: nat)
    requires Tidy(info, size) && DisabledBelow(info.status, status, size)
    ensures Tidy(info.(status := status), size)
  {
  }

  method DisableEnabled(keys: seq<string>, info: Info) returns (status: map<int, int>, count: nat)
    requires Tidy(info, |keys|)
    ensures Tidy(info.(status := status), |keys|)
    ensures forall i :: 0 <= i < |keys| ==>
              RecordAt(keys, info.(status := status), i) == Disabled(RecordAt(keys, info, i))
    ensures count == CountStatus(Assemble(keys, info), ENABLED)
  {
    status, count := info.status, 0;
    ghost var view := Assemble(keys, info);
    for i := 0 to |keys|
      invariant DisabledBelow(info.status, status, i)
      invariant count == CountStatus(view[..i], ENABLED)
    {
      CountNext(view, i, ENABLED);
      var current := if i in status then status[i] else ENABLED;
      if current == ENABLED {
        status := status[i := MANUALLY_DISABLED];
        count := count + 1;
      }
    }
    assert view[..|keys|] == view;
    DisabledTidy(info, status, |keys|);
    forall i | 0 <= i < |keys| {
      DisabledRecord(keys, info, status, i);
    }
  }

  // ---- Appending keys ----

  /** How appending reads the stored text: without the fallback to lines. */
  function ExistingKeys(decode: Decoder, text: string): seq<string> {
    if LooksLikeArray(text) then
      (if decode(TrimSpace(text)).Some? then decode(TrimSpace(text)).value else [])
    else Split(TrimChar(text, '\n'), '\n')
  }

  /** Appending sees the same keys as everything else, unless the text starts like an array
      and does not decode. */
  lemma ExistingKeysAgreeIff(decode: Decoder, text: string)
    requires text != ""
    ensures ExistingKeys(decode, text) == GetKeys(decode, text) <==>
            (LooksLikeArray(text) ==> decode(TrimSpace(text)).Some?)
  {
  }

  /** Keys to append: one per line, or Vertex key objects, None if their array does not decode. */
  datatype Input = Lines(text: string) | Objects(keys: Option<seq<string>>)

  function Offered(input: Input): Option<seq<string>> {
    match input
    case Lines(text) => Some(Split(text, '\n'))
    case Objects(keys) => keys
  }

  /** The old records in front, unchanged; then the new keys, enabled. */
  ghost predicate AppendsEnabled(before: seq<Record>, after: seq<Record>, added: seq<string>) {
    && |after| == |before| + |added|
    && after[..|before|] == before
    && forall i :: 0 <= i < |added| ==> after[|before| + i] == Record(added[i], ENABLED, 0, "")
  }

  lemma AppendedRecords(existing: seq<string>, added: seq<string>, info: Info)
    requires Tidy(info, |existing|)
    ensures AppendsEnabled(Assemble(existing, info), Assemble(existing + added, info), added)
  {
    var before, after := Assemble(existing, info), Assemble(existing + added, info);
    assert forall i :: 0 <= i < |before| ==> after[i] == before[i];
  }

  /** Keys that survive are counted right, so that no status is dropped. */
  lemma SurvivorsCounted(decode: Decoder, keys: seq<string>, info: Info, size: nat)
    requires keys != [] && Survives(decode, keys) && Tidy(info, size) && size <= |keys|
    ensures GetKeys(decode, Join(keys, '\n')) == keys && CountKeys(decode, Join(keys, '\n')) == |keys|
    ensures WithoutBeyond(info, |keys|) == info && Tidy(info, |keys|)
  {
    KeysSurviveIff(decode, keys);
    assert WithoutBeyond(info, |keys|).status == info.status;
  }

  method NewKeys(existing: seq<string>, input: seq<string>) returns (added: seq<string>)
    ensures added == Without(Normalize(input), NameSet(existing))
  {
    var newKeys := TrimNonEmpty(input);
    var seen := SetOfNames(existing);
    ghost var known := seen;
    added := [];
    assert newKeys[..0] == [] && Uniq([]) == [];
    for i := 0 to |newKeys|
      invariant added == Without(Uniq(newKeys[..i]), known)
      invariant forall x :: x in seen <==> x in known || x in Uniq(newKeys[..i])
    {
      assert newKeys[..i + 1][..i] == newKeys[..i];
      var key := newKeys[i];
      WithoutSnoc(Uniq(newKeys[..i]), key, known);
      if key !in seen {
        added := added + [key];
      }
      seen := seen + {key};
    }
    assert newKeys[..|newKeys|] == newKeys;
  }

  // ---- Listing keys page by page ----

  datatype KeyStatus = KeyStatus(index: nat, status: int, time: int, reason: string, preview: string)

  function Preview(key: string): string {
    if |key| > 10 then key[..10] + "..." else key
  }

  function Listed(view: seq<Record>, i: nat): KeyStatus
    requires i < |view|
  {
    KeyStatus(i, view[i].status, view[i].time, view[i].reason, Preview(view[i].key))
  }

  /** The entries, in order, whose status matches the filter. */
  function Matching(view: seq<Record>, filter: Option<int>, n: nat): seq<KeyStatus>
    requires n <= |view|
  {
    if n == 0 then []
    else
      var init, last := Matching(view, filter, n - 1), Listed(view, n - 1);
      if filter.Some? && last.status != filter.value then init else init + [last]
  }

  function TotalPages(total: nat, pageSize: int): (pages: int)
    requires pageSize > 0
  {
    var pages := (total + pageSize - 1) / pageSize;
    if pages == 0 then 1 else pages
  }

  function Page<T>(list: seq<T>, page: int, pageSize: int): seq<T>
    requires page >= 1 && pageSize > 0
  {
    var start := (page - 1) * pageSize;
    var end := if start + pageSize > |list| then |list| else start + pageSize;
    if start < |list| then list[start..end] else []
  }

  function Pages<T>(list: seq<T>, pageSize: int, n: nat): seq<T>
    requires pageSize > 0
  {
    if n == 0 then [] else Pages(list, pageSize, n - 1) + Page(list, n, pageSize)
  }

  lemma {:induction false} PagesArePrefix<T>(list: seq<T>, pageSize: int, n: nat)
    requires pageSize > 0
    ensures Pages(list, pageSize, n) == if n * pageSize <= |list| then list[..n * pageSize] else list
  {
    if n > 0 {
      PagesArePrefix(list, pageSize, n - 1);
      assert n * pageSize == (n - 1) * pageSize + pageSize;
    }
  }

  lemma LastPage(total: nat, pageSize: int)
    requires pageSize > 0
    ensures
      var pages := TotalPages(total, pageSize);
      pages >= 1 && pages * pageSize >= total && (total > 0 ==> (pages - 1) * pageSize < total)
  {
    var up := total + pageSize - 1;
    var q := up / pageSize;
    assert up == q * pageSize + up % pageSize;
    if q > 0 {
      assert (q - 1) * pageSize == q * pageSize - pageSize;
    } else {
      assert q * pageSize == 0;
    }
  }

  lemma EnoughPagesCover<T>(list: seq<T>, pageSize: int, pages: nat)
    requires pageSize > 0 && pages * pageSize >= |list|
    ensures Pages(list, pageSize, pages) == list
  {
    PagesArePrefix(list, pageSize, pages);
  }

  /** All pages together list every matching key once, in order. */
  lemma PagesCover<T>(list: seq<T>, pageSize: int)
    requires pageSize > 0
    ensures TotalPages(|list|, pageSize) >= 1
    ensures Pages(list, pageSize, TotalPages(|list|, pageSize)) == list
  {
    LastPage(|list|, pageSize);
    EnoughPagesCover(list, pageSize, TotalPages(|list|, pageSize));
  }

  method ScanKeys(keys: seq<string>, info: Info, filter: Option<int>)
    returns (matching: seq<KeyStatus>, enabled: nat, manual: nat, auto: nat)
    requires Tidy(info, |keys|)
    ensures
      var view := Assemble(keys, info);
      && matching == Matching(view, filter, |view|)
      && enabled == CountStatus(view, ENABLED)
      && manual == CountStatus(view, MANUALLY_DISABLED)
      && auto == CountStatus(view, AUTO_DISABLED)
  {
    ghost var view := Assemble(keys, info);
    matching, enabled, manual, auto := [], 0, 0, 0;
    for i := 0 to |keys|
      invariant matching == Matching(view, filter, i)
      invariant enabled == CountStatus(view[..i], ENABLED)
      invariant manual == CountStatus(view[..i], MANUALLY_DISABLED)
      invariant auto == CountStatus(view[..i], AUTO_DISABLED)
    {
      CountNext(view, i, ENABLED);
      CountNext(view, i, MANUALLY_DISABLED);
      CountNext(view, i, AUTO_DISABLED);
      var status := StatusAt(info, i);
      var time, reason := 0, "";
      match status {
        case 1 => enabled := enabled + 1;
        case 2 => manual := manual + 1;
        case 3 => auto := auto + 1;
        case _ =>
      }
      if status != ENABLED {
        time, reason := TimeAt(info, i), ReasonAt(info, i);
      }
      if filter.None? || status == filter.value {
        matching := matching + [KeyStatus(i, status, time, reason, Preview(keys[i]))];
      }
    }
    assert view[..|keys|] == view;
  }

  method ListKeys(keys: seq<string>, info: Info, page: int, pageSize: int, filter: Option<int>)
    returns (shown: seq<KeyStatus>, total: nat, totalPages: int, enabled: nat, manual: nat, auto: nat)
    requires Tidy(info, |keys|)
    ensures
      var view, size := Assemble(keys, info), if pageSize <= 0 then 50 else pageSize;
      var matching := Matching(view, filter, |view|);
      && total == |matching|
      && totalPages == TotalPages(total, size)
      && shown == Page(matching, if page <= 0 then 1 else if page > totalPages then totalPages else page, size)
      && enabled == CountStatus(view, ENABLED)
      && manual == CountStatus(view, MANUALLY_DISABLED)
      && auto == CountStatus(view, AUTO_DISABLED)
  {
    var size := if pageSize <= 0 then 50 else pageSize;
    var matching;
    matching, enabled, manual, auto := ScanKeys(keys, info, filter);
    total := |matching|;
    totalPages := TotalPages(total, size);
    LastPage(total, size);
    shown := Page(matching, if page <= 0 then 1 else if page > totalPages then totalPages else page, size);
  }

  // ---- Keys that are not kept ----

  lemma JoinPair(x: string, y: string)
    ensures Join([x, y], '\n') == x + "\n" + y
  {
    assert [x, y][..1] == [x] && Join([x], '\n') == x;
  }

  lemma JoinTriple(x: string, y: string, z: string)
    ensures Join([x, y, z], '\n') == x + "\n" + y + "\n" + z
  {
    assert [x, y, z][..2] == [x, y];
    JoinPair(x, y);
  }

  lemma BlankKeyLost(decode: Decoder)
    ensures !Survives(decode, ["", "b"]) && GetKeys(decode, Join(["", "b"], '\n')) == ["b"]
  {
    JoinPair("", "b");
    assert Join(["", "b"], '\n') == "\nb";
    assert TrimSpace("\nb") == "b" && TrimChar("\nb", '\n') == "b";
    SplitFree("b", '\n');
  }

  /** Deleting "a" from the keys "a", "" and "b" also loses the blank key. */
  lemma BlankKeyExample(decode: Decoder)
    ensures GetKeys(decode, "a\n\nb") == ["a", "", "b"] && RemoveAt(["a", "", "b"], 0) == ["", "b"]
    ensures !Survives(decode, ["", "b"]) && GetKeys(decode, Join(["", "b"], '\n')) == ["b"]
  {
    var keys := ["a", "", "b"];
    JoinTriple("a", "", "b");
    assert Join(keys, '\n') == "a\n\nb" && TrimSpace("a\n\nb") == "a\n\nb";
    LinesSurviveIff(decode, keys);
    BlankKeyLost(decode);
  }

  /** If every key is automatically disabled, no key is left, and the text stays. */
  lemma AllDisabledExample()
    ensures
      var info := Info(map[0 := AUTO_DISABLED], map[], map[]);
      && Tidy(info, 1) && Kept(Assemble(["a"], info)) == [] && Saved([], "a") == "a"
  {
    var view := Assemble(["a"], Info(map[0 := AUTO_DISABLED], map[], map[]));
    assert |view| == 1 && view[0].status == AUTO_DISABLED && view[..0] == [];
  }

  /** A text that starts like an array and does not decode holds one key, which appending
      does not see. */
  lemma UndecodableExample(decode: Decoder)
    requires decode("[x").None?
    ensures GetKeys(decode, "[x") == ["[x"] && ExistingKeys(decode, "[x") == []
  {
    assert TrimSpace("[x") == "[x" && TrimChar("[x", '\n') == "[x";
    SplitFree("[x", '\n');
  }

  // ---- The stored channel ----

  /** The text after saving a key list: an empty text is not saved. */
  function Saved(keys: seq<string>, text: string): string {
    if Join(keys, '\n') != "" then Join(keys, '\n') else text
  }

  class Channel {
    const decode: Decoder
    var text: string
    var size: int
    var info: Info

    function Keys(): seq<string>
      reads this
    {
      GetKeys(decode, text)
    }

    function View(): seq<Record>
      reads this
    {
      Assemble(Keys(), info)
    }

    ghost predicate Valid()
      reads this
    {
      size == |Keys()| == CountKeys(decode, text) && Tidy(info, size)
    }

    constructor (decode: Decoder, text: string, info: Info)
      requires CountKeys(decode, text) == |GetKeys(decode, text)| && Tidy(info, |GetKeys(decode, text)|)
      ensures Valid() && this.decode == decode && this.text == text && this.info == info
    {
      this.decode, this.text, this.info, this.size := decode, text, info, |GetKeys(decode, text)|;
    }

    /** Saving keeps the old text when the new one is empty, recounts the keys and drops
        statuses beyond them. */
    method Update(newText: string, newInfo: Info)
      modifies this
      ensures text == if newText != "" then newText else old(text)
      ensures size == CountKeys(decode, text)
      ensures info == WithoutBeyond(newInfo, size)
    {
      if newText != "" {
        text := newText;
      }
      size := CountKeys(decode, text);
      info := WithoutBeyond(newInfo, size);
    }

    /** Saving other per-key state under the same text. */
    method SaveInfo(newInfo: Info)
      requires Valid() && Tidy(newInfo, size)
      modifies this
      ensures Valid() && text == old(text) && info == newInfo
    {
      Update(text, newInfo);
      assert info.status == newInfo.status;
    }

    predicate InRange(index: Option<int>)
      reads this
    {
      index.Some? && 0 <= index.value < size
    }

    method DisableKey(index: Option<int>) returns (ok: bool)
      requires Valid()
      modifies this
      ensures Valid() && text == old(text)
      ensures ok == old(InRange(index))
      ensures View() == if ok then old(View())[index.value := old(View())[index.value].(status := MANUALLY_DISABLED)]
                        else old(View())
    {
      if index.None? || index.value < 0 || index.value >= size {
        return false;
      }
      SaveInfo(info.(status := info.status[index.value := MANUALLY_DISABLED]));
      return true;
    }

    method EnableKey(index: Option<int>) returns (ok: bool)
      requires Valid()
      modifies this
      ensures Valid() && text == old(text)
      ensures ok == old(InRange(index))
      ensures View() == if ok then old(View())[index.value := Record(old(View())[index.value].key, ENABLED, 0, "")]
                        else old(View())
    {
      if index.None? || index.value < 0 || index.value >= size {
        return false;
      }
      var i := index.value;
      SaveInfo(Info(info.status - {i}, info.time - {i}, info.reason - {i}));
      return true;
    }

    method EnableAllKeys() returns (count: nat)
      requires Valid()
      modifies this
      ensures Valid() && text == old(text)
      ensures count == |old(info).status|
      ensures |View()| == |old(View())| &&
              forall i :: 0 <= i < |View()| ==> View()[i] == Record(old(View())[i].key, ENABLED, 0, "")
    {
      count := |info.status|;
      SaveInfo(Info(map[], map[], map[]));
    }

    method DisableAllKeys() returns (count: nat)
      requires Valid()
      modifies this
      ensures Valid() && text == old(text)
      ensures count == CountStatus(old(View()), ENABLED)
      ensures |View()| == |old(View())| &&
              forall i :: 0 <= i < |View()| ==>
                View()[i] == Disabled(old(View())[i])
    {
      var status;
      status, count := DisableEnabled(Keys(), info);
      if count > 0 {
        SaveInfo(info.(status := status));
      } else {
        NoneCounted(View(), ENABLED);
      }
    }

    /** Deleting one key. The list loses that record and nothing else, exactly when the
        keys that remain survive being written one per line. */
    method DeleteKey(index: Option<int>) returns (ok: bool)
      requires Valid()
      modifies this
      ensures ok == old(InRange(index) && size > 1)
      ensures !ok ==> Valid() && text == old(text) && View() == old(View())
      ensures ok ==>
        var rest := RemoveAt(old(Keys()), index.value);
        && text == Saved(rest, old(text))
        && (Keys() == rest <==> Survives(decode, rest))
        && (Survives(decode, rest) ==> Valid() && View() == RemoveAt(old(View()), index.value))
    {
      if index.None? || index.value < 0 || index.value >= size {
        return false;
      }
      var gone := index.value;
      var keys := Keys();
      var remaining, moved := DropKey(keys, info, gone);
      if |remaining| == 0 {
        return false;
      }
      SaveKeys(remaining, moved);
      return true;
    }

    /** Deleting the automatically disabled keys. The list loses exactly their records, if
        some key is left and the rest survives being written one per line. If no key is
        left, the empty text is not saved: all keys stay and all of them are enabled. */
    method DeleteDisabledKeys() returns (ok: bool, deleted: nat)
      requires Valid()
      modifies this
      ensures deleted == CountStatus(old(View()), AUTO_DISABLED) && ok == (deleted > 0)
      ensures !ok ==> Valid() && text == old(text) && View() == old(View())
      ensures ok && Kept(old(View())) == [] ==>
        && Valid() && text == old(text) && |View()| == |old(View())|
        && forall i :: 0 <= i < |View()| ==> View()[i] == Record(old(View())[i].key, ENABLED, 0, "")
      ensures
        var rest := KeysOf(Kept(old(View())));
        ok && rest != [] ==>
          && text == Saved(rest, old(text))
          && (Keys() == rest <==> Survives(decode, rest))
          && (Survives(decode, rest) ==> Valid() && View() == Kept(old(View())))
    {
      var keys := Keys();
      var remaining, moved;
      remaining, moved, deleted := DropAutoDisabled(keys, info);
      AssembledKeys(remaining, moved);
      if deleted == 0 {
        ok := false;
        return;
      }
      if remaining == [] {
        Update("", moved);
      } else {
        SaveKeys(remaining, moved);
      }
      ok := true;
    }

    /** Appending keys. Blank ones, repetitions and keys that exist are dropped; if all keys
        survive being written one per line, every existing record keeps its place and the
        new keys are enabled. If the text starts like an array but does not decode, nothing
        counts as existing: new keys that survive replace the old ones and take over, index
        by index, what was recorded for them. With nothing to add, nothing changes. */
    method AppendKeys(input: Input) returns (ok: bool, added: seq<string>)
      requires Valid() && text != ""
      modifies this
      ensures ok <==> Offered(input).Some?
      ensures !ok ==> Valid() && text == old(text) && View() == old(View())
      ensures ok ==>
        var existing := ExistingKeys(decode, old(text));
        var all := existing + added;
        && added == Without(Normalize(Offered(input).value), NameSet(existing))
        && text == Saved(all, old(text))
        && size == CountKeys(decode, text) && info == WithoutBeyond(old(info), size)
        && (all != [] && Join(all, '\n') != "" ==> (Keys() == all <==> Survives(decode, all)))
        && (all != [] && Survives(decode, all) && existing == old(Keys()) ==>
              Valid() && AppendsEnabled(old(View()), View(), added))
        && (existing != old(Keys()) ==> existing == [])
        && (existing == [] && added == [] ==> Valid() && text == old(text) && View() == old(View()))
        && (existing == [] && added != [] && Survives(decode, added) ==>
              View() == Assemble(added, WithoutBeyond(old(info), |added|)))
    {
      if Offered(input).None? {
        return false, [];
      }
      var existing := ExistingKeys(decode, text);
      added := NewKeys(existing, Offered(input).value);
      var all := existing + added;
      Update(Join(all, '\n'), info);
      ok := true;
      if all != [] {
        KeysSurviveIff(decode, all);
        if Survives(decode, all) && existing == old(Keys()) {
          SurvivorsCounted(decode, all, old(info), |existing|);
          AppendedRecords(existing, added, old(info));
        }
        assert existing == [] ==> all == added;
      } else {
        assert Join(all, '\n') == "";
        assert info.status == old(info).status;
      }
    }

    /** Saving a new, non-empty key list: it and all its records are kept exactly when it
        survives being written one per line. A text that would be empty is not saved. */
    method SaveKeys(keys: seq<string>, newInfo: Info)
      requires keys != [] && Tidy(newInfo, |keys|)
      modifies this
      ensures text == Saved(keys, old(text))
      ensures Join(keys, '\n') != "" ==> (Keys() == keys <==> Survives(decode, keys))
      ensures Survives(decode, keys) ==> Valid() && View() == Assemble(keys, newInfo)
      ensures Join(keys, '\n') == "" ==> keys == [""] && Keys() == old(Keys()) && !Survives(decode, keys)
    {
      Update(Join(keys, '\n'), newInfo);
      KeysSurviveIff(decode, keys);
      assert Join(keys, '\n') == "" ==> |keys| == 1;
      if Survives(decode, keys) {
        SurvivorsCounted(decode, keys, newInfo, |keys|);
      }
    }
  }
}

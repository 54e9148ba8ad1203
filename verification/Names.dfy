/** Lists of model names: trimming, duplicate removal, and the comma-separated text in which
    a channel stores them. */
module Names {

  import opened Basics

  // ---- Trimming white space ----

  /** Unicode white space, as the standard library's trimming function defines it. */
  predicate IsSpace(c: char) {
    c in {'\t', '\n', '\U{000B}', '\U{000C}', '\r', ' ', '\U{0085}', '\U{00A0}', '\U{1680}', '\U{2028}', '\U{2029}',
          '\U{202F}', '\U{205F}', '\U{3000}'} || '\U{2000}' <= c <= '\U{200A}'
  }

  predicate Trimmed(s: string) {
    s != [] ==> !IsSpace(s[0]) && !IsSpace(s[|s| - 1])
  }

  function TrimSpace(s: string): (t: string)
    ensures Trimmed(t)
    ensures Trimmed(s) ==> t == s
    ensures forall c :: c in t ==> c in s
  {
    if s == [] then s
    else if IsSpace(s[0]) then TrimSpace(s[1..])
    else if IsSpace(s[|s| - 1]) then TrimSpace(s[..|s| - 1])
    else s
  }

  // ---- Normalised lists ----

  function TrimNonEmpty(names: seq<string>): seq<string> {
    if names == [] then []
    else
      var init, last := TrimNonEmpty(names[..|names| - 1]), TrimSpace(names[|names| - 1]);
      if last == "" then init else init + [last]
  }

  function Uniq(names: seq<string>): seq<string> {
    if names == [] then []
    else
      var init, last := Uniq(names[..|names| - 1]), names[|names| - 1];
      if last in init then init else init + [last]
  }

  function Normalize(names: seq<string>): seq<string> {
    Uniq(TrimNonEmpty(names))
  }

  ghost predicate Normal(names: seq<string>) {
    && (forall i :: 0 <= i < |names| ==> names[i] != "" && Trimmed(names[i]))
    && Distinct(names)
  }

  /** The trimmed non-empty names a list stands for, order and repetition aside. */
  ghost function NameSet(names: seq<string>): set<string> {
    set i | 0 <= i < |names| && TrimSpace(names[i]) != "" :: TrimSpace(names[i])
  }

  ghost function Members(names: seq<string>): set<string> {
    set x | x in names
  }

  lemma NameSetSnoc(names: seq<string>, x: string)
    ensures NameSet(names + [x]) == NameSet(names) + (if TrimSpace(x) == "" then {} else {TrimSpace(x)})
  {
    var all := names + [x];
    forall y | y in NameSet(names)
      ensures y in NameSet(all)
    {
      var i :| 0 <= i < |names| && TrimSpace(names[i]) == y;
      assert all[i] == names[i];
    }
    assert all[|names|] == x;
  }

  lemma NormalSnoc(names: seq<string>, x: string)
    requires Normal(names) && x != "" && Trimmed(x) && x !in names
    ensures Normal(names + [x])
    ensures Members(names + [x]) == Members(names) + {x}
  {
  }

  lemma NormalizeSnoc(names: seq<string>, x: string)
    ensures Normalize(names + [x]) ==
            if TrimSpace(x) == "" || TrimSpace(x) in Normalize(names) then Normalize(names)
            else Normalize(names) + [TrimSpace(x)]
  {
    assert (names + [x])[..|names|] == names;
    var init := TrimNonEmpty(names);
    assert (init + [TrimSpace(x)])[..|init|] == init;
  }

  lemma {:induction false} NormalizeIsNormal(names: seq<string>)
    ensures Normal(Normalize(names))
    ensures Members(Normalize(names)) == NameSet(names)
  {
    if names != [] {
      var init, last := names[..|names| - 1], names[|names| - 1];
      assert init + [last] == names;
      NormalizeIsNormal(init);
      NormalizeSnoc(init, last);
      NameSetSnoc(init, last);
      var x, known := TrimSpace(last), Normalize(init);
      if x != "" && x !in known {
        NormalSnoc(known, x);
      } else if x != "" {
        assert x in Members(known);
      }
    }
  }

  lemma NormalInit(names: seq<string>, last: string)
    requires Normal(names + [last])
    ensures Normal(names) && last != "" && Trimmed(last) && last !in names
  {
    var all := names + [last];
    assert all[|names|] == last;
    assert forall i :: 0 <= i < |names| ==> all[i] == names[i];
  }

  lemma {:induction false} NormalizeOfNormal(names: seq<string>)
    requires Normal(names)
    ensures Normalize(names) == names
  {
    if names != [] {
      var init, last := names[..|names| - 1], names[|names| - 1];
      assert init + [last] == names;
      NormalInit(init, last);
      NormalizeOfNormal(init);
      NormalizeSnoc(init, last);
    }
  }

  // ---- Filtering ----

  function Filter(names: seq<string>, keep: string -> bool): seq<string> {
    if names == [] then []
    else
      var init, last := Filter(names[..|names| - 1], keep), names[|names| - 1];
      if keep(last) then init + [last] else init
  }

  function Without(names: seq<string>, gone: set<string>): seq<string> {
    Filter(names, x => x !in gone)
  }

  lemma {:induction false} FilterMembers(names: seq<string>, keep: string -> bool)
    ensures forall x :: x in Filter(names, keep) <==> x in names && keep(x)
  {
    if names != [] {
      var init, last := names[..|names| - 1], names[|names| - 1];
      FilterMembers(init, keep);
      assert names == init + [last];
    }
  }

  lemma {:induction false} FilterNormal(names: seq<string>, keep: string -> bool)
    requires Normal(names)
    ensures Normal(Filter(names, keep))
  {
    if names != [] {
      var init, last := names[..|names| - 1], names[|names| - 1];
      FilterNormal(init, keep);
      FilterMembers(init, keep);
      if keep(last) {
        NormalSnoc(Filter(init, keep), last);
      }
    }
  }

  lemma {:induction false} FilterConcat(a: seq<string>, b: seq<string>, keep: string -> bool)
    ensures Filter(a + b, keep) == Filter(a, keep) + Filter(b, keep)
  {
    if b == [] {
      assert a + b == a;
    } else {
      var init, last := b[..|b| - 1], b[|b| - 1];
      FilterConcat(a, init, keep);
      assert (a + b)[..|a + b| - 1] == a + init;
    }
  }

  lemma {:induction false} FilterAll(names: seq<string>, keep: string -> bool)
    requires forall x :: x in names ==> keep(x)
    ensures Filter(names, keep) == names
  {
    if names != [] {
      var init := names[..|names| - 1];
      assert names == init + [names[|names| - 1]];
      FilterAll(init, keep);
    }
  }

  lemma {:induction false} FilterSame(names: seq<string>, p: string -> bool, q: string -> bool)
    requires forall x :: x in names ==> p(x) == q(x)
    ensures Filter(names, p) == Filter(names, q)
  {
    if names != [] {
      var init := names[..|names| - 1];
      assert names == init + [names[|names| - 1]];
      FilterSame(init, p, q);
    }
  }

  lemma FilterEmpty(names: seq<string>, keep: string -> bool)
    ensures Filter(names, keep) == [] <==> forall x :: x in names ==> !keep(x)
  {
    FilterMembers(names, keep);
    if Filter(names, keep) != [] {
      assert Filter(names, keep)[0] in names;
    }
  }

  // ---- Merging ----

  lemma WithoutSnoc(names: seq<string>, x: string, gone: set<string>)
    ensures Without(names + [x], gone) == Without(names, gone) + if x in gone then [] else [x]
    ensures x in Without(names, gone) <==> x in names && x !in gone
  {
    assert (names + [x])[..|names|] == names;
    FilterMembers(names, y => y !in gone);
  }

  lemma MergeStep(base: seq<string>, appended: seq<string>, x: string)
    ensures
      var known := Members(base);
      var merged := base + Without(appended, known);
      (if x in merged then merged else merged + [x])
      == base + Without(if x in appended then appended else appended + [x], known)
  {
    WithoutSnoc(appended, x, Members(base));
  }

  /** Normalising a concatenation keeps the first list whole and appends what is new. */
  lemma {:induction false} NormalizeConcat(a: seq<string>, b: seq<string>)
    ensures Normalize(a + b) == Normalize(a) + Without(Normalize(b), Members(Normalize(a)))
  {
    if b == [] {
      assert a + b == a;
    } else {
      var init, last := b[..|b| - 1], b[|b| - 1];
      NormalizeConcat(a, init);
      assert a + b == a + init + [last] && init + [last] == b;
      NormalizeSnoc(a + init, last);
      NormalizeSnoc(init, last);
      MergeStep(Normalize(a), Normalize(init), TrimSpace(last));
    }
  }

  lemma DisjointMerge(a: seq<string>, b: seq<string>)
    requires Normal(a) && Normal(b) && (forall x :: x in b ==> x !in a)
    ensures Normalize(a + b) == a + b
  {
    NormalizeConcat(a, b);
    NormalizeOfNormal(a);
    NormalizeOfNormal(b);
    FilterAll(b, x => x !in Members(a));
  }

  method MergeModelNames(base: seq<string>, appended: seq<string>) returns (merged: seq<string>)
    ensures merged == Normalize(base + appended)
  {
    merged := Normalize(base);
    ghost var known := Members(merged);
    var seen: set<string> := {};
    for i := 0 to |merged|
      invariant seen == Members(merged[..i])
    {
      assert merged[..i + 1] == merged[..i] + [merged[i]];
      seen := seen + {merged[i]};
    }
    assert merged[..|merged|] == merged;
    var extra := Normalize(appended);
    NormalizeIsNormal(appended);
    for i := 0 to |extra|
      invariant merged == Normalize(base) + Without(extra[..i], known)
      invariant seen == known + Members(extra[..i])
    {
      var model := extra[i];
      assert extra[..i + 1][..i] == extra[..i] && extra[..i + 1] == extra[..i] + [model];
      if model !in seen {
        merged := merged + [model];
      } else {
        assert model !in extra[..i];
      }
      seen := seen + {model};
    }
    assert extra[..|extra|] == extra;
    NormalizeConcat(base, appended);
  }

  method SubtractModelNames(base: seq<string>, removed: seq<string>) returns (rest: seq<string>)
    ensures rest == Without(Normalize(base), NameSet(removed))
  {
    var gone := SetOfNames(removed);
    rest := Filter(Normalize(base), x => x !in gone);
  }

  method IntersectModelNames(base: seq<string>, allowed: seq<string>) returns (rest: seq<string>)
    ensures rest == Filter(Normalize(base), x => x in NameSet(allowed))
  {
    var kept := SetOfNames(allowed);
    rest := Filter(Normalize(base), x => x in kept);
  }

  method SetOfNames(names: seq<string>) returns (members: set<string>)
    ensures members == NameSet(names)
  {
    var normalized := Normalize(names);
    members := {};
    for i := 0 to |normalized|
      invariant members == Members(normalized[..i])
    {
      assert normalized[..i + 1] == normalized[..i] + [normalized[i]];
      members := members + {normalized[i]};
    }
    assert normalized[..|normalized|] == normalized;
    NormalizeIsNormal(names);
  }

  // ---- Separated text ----

  function Join(parts: seq<string>, sep: char): string {
    if parts == [] then ""
    else if |parts| == 1 then parts[0]
    else Join(parts[..|parts| - 1], sep) + [sep] + parts[|parts| - 1]
  }

  function Split(s: string, sep: char): (parts: seq<string>)
    ensures parts != []
  {
    if s == "" then [""]
    else
      var init, last := Split(s[..|s| - 1], sep), s[|s| - 1];
      if last == sep then init + [""] else init[|init| - 1 := init[|init| - 1] + [last]]
  }

  /** Removes every leading and trailing `sep`. */
  function TrimChar(s: string, sep: char): string {
    if s == "" then s
    else if s[0] == sep then TrimChar(s[1..], sep)
    else if s[|s| - 1] == sep then TrimChar(s[..|s| - 1], sep)
    else s
  }

  lemma {:induction false} SplitFree(s: string, sep: char)
    ensures forall i :: 0 <= i < |Split(s, sep)| ==> sep !in Split(s, sep)[i]
    ensures sep !in s ==> Split(s, sep) == [s]
  {
    if s != "" {
      SplitFree(s[..|s| - 1], sep);
      assert s == s[..|s| - 1] + [s[|s| - 1]];
    }
  }

  /** What appending one character does to the pieces of a text. */
  function Extend(parts: seq<string>, c: char, sep: char): seq<string>
    requires parts != []
  {
    if c == sep then parts + [""] else parts[|parts| - 1 := parts[|parts| - 1] + [c]]
  }

  lemma SplitSnoc(s: string, c: char, sep: char)
    ensures Split(s + [c], sep) == Extend(Split(s, sep), c, sep)
  {
    assert (s + [c])[..|s|] == s;
  }

  lemma ExtendTail(front: seq<string>, parts: seq<string>, c: char, sep: char)
    requires parts != []
    ensures Extend(front + parts, c, sep) == front + Extend(parts, c, sep)
  {
  }

  lemma {:induction false} SplitConcat(a: string, b: string, sep: char)
    ensures Split(a + [sep] + b, sep) == Split(a, sep) + Split(b, sep)
  {
    if b == "" {
      assert a + [sep] + b == a + [sep];
      SplitSnoc(a, sep, sep);
    } else {
      var init, last := b[..|b| - 1], b[|b| - 1];
      SplitConcat(a, init, sep);
      assert b == init + [last] && a + [sep] + b == (a + [sep] + init) + [last];
      SplitSnoc(a + [sep] + init, last, sep);
      SplitSnoc(init, last, sep);
      ExtendTail(Split(a, sep), Split(init, sep), last, sep);
    }
  }

  function FlatSplit(parts: seq<string>, sep: char): seq<string> {
    if parts == [] then [] else FlatSplit(parts[..|parts| - 1], sep) + Split(parts[|parts| - 1], sep)
  }

  lemma {:induction false} SplitJoin(parts: seq<string>, sep: char)
    requires parts != []
    ensures Split(Join(parts, sep), sep) == FlatSplit(parts, sep)
  {
    var init := parts[..|parts| - 1];
    if |parts| == 1 {
      assert init == [] && FlatSplit(init, sep) == [];
    } else {
      SplitJoin(init, sep);
      SplitConcat(Join(init, sep), parts[|parts| - 1], sep);
    }
  }

  lemma {:induction false} FlatSplitFree(parts: seq<string>, sep: char)
    requires forall i :: 0 <= i < |parts| ==> sep !in parts[i]
    ensures FlatSplit(parts, sep) == parts
  {
    if parts != [] {
      FlatSplitFree(parts[..|parts| - 1], sep);
      SplitFree(parts[|parts| - 1], sep);
    }
  }

  lemma FlatSplitSnoc(parts: seq<string>, last: string, sep: char)
    ensures FlatSplit(parts + [last], sep) == FlatSplit(parts, sep) + Split(last, sep)
  {
    assert (parts + [last])[..|parts|] == parts;
  }

  lemma ConcatSnoc<T>(a: seq<T>, b: seq<T>, c: seq<T>)
    ensures a + b + c == a + (b + c)
  {
  }

  lemma {:induction false} FlatSplitConcat(a: seq<string>, b: seq<string>, sep: char)
    ensures FlatSplit(a + b, sep) == FlatSplit(a, sep) + FlatSplit(b, sep)
  {
    if b == [] {
      assert a + b == a;
    } else {
      var init, last := b[..|b| - 1], b[|b| - 1];
      FlatSplitConcat(a, init, sep);
      assert b == init + [last];
      ConcatSnoc(a, init, [last]);
      FlatSplitSnoc(a + init, last, sep);
      FlatSplitSnoc(init, last, sep);
      ConcatSnoc(FlatSplit(a, sep), FlatSplit(init, sep), Split(last, sep));
    }
  }

  // ---- The model list of a channel ----

  function GetModels(models: string): seq<string> {
    if models == "" then [] else Split(TrimChar(models, ','), ',')
  }

  /** The normalised names a stored model list denotes. */
  function LocalNames(models: string): seq<string> {
    Normalize(GetModels(models))
  }

  /** Separators at either end only produce blanks, which normalising drops. */
  lemma {:induction false} TrimCharInvisible(s: string, sep: char)
    ensures Normalize(Split(TrimChar(s, sep), sep)) == Normalize(Split(s, sep))
    decreases |s|
  {
    if s != "" {
      if s[0] == sep {
        TrimCharInvisible(s[1..], sep);
        assert "" + [sep] + s[1..] == s;
        SplitConcat("", s[1..], sep);
        NormalizeConcat([""], Split(s[1..], sep));
        assert Normalize([""]) == [];
        FilterAll(Normalize(Split(s[1..], sep)), x => x !in Members([]));
      } else if s[|s| - 1] == sep {
        var init := s[..|s| - 1];
        TrimCharInvisible(init, sep);
        assert init + [sep] + "" == s;
        SplitConcat(init, "", sep);
        NormalizeSnoc(Split(init, sep), "");
      }
    }
  }

  /** Storing a list and reading it back yields the comma-separated pieces of its names. */
  lemma StoredNames(names: seq<string>)
    ensures LocalNames(Join(names, ',')) == Normalize(FlatSplit(names, ','))
  {
    if Join(names, ',') == "" {
      if names != [] {
        SplitJoin(names, ',');
        assert FlatSplit(names, ',') == [""];
        NormalizeSnoc([], "");
        assert [] + [""] == [""];
      }
    } else {
      TrimCharInvisible(Join(names, ','), ',');
      SplitJoin(names, ',');
    }
  }

  lemma LocalNamesNormal(models: string)
    ensures Normal(LocalNames(models))
    ensures forall x :: x in LocalNames(models) ==> ',' !in x
  {
    var parts := GetModels(models);
    NormalizeIsNormal(parts);
    if models != "" {
      SplitFree(TrimChar(models, ','), ',');
    }
    forall x | x in LocalNames(models)
      ensures ',' !in x
    {
      assert x in Members(LocalNames(models));
      var part :| part in parts && TrimSpace(part) == x;
    }
  }

  /** Names without a comma survive storing. */
  lemma StoredCommaFree(names: seq<string>)
    requires Normal(names) && forall x :: x in names ==> ',' !in x
    ensures LocalNames(Join(names, ',')) == names
  {
    StoredNames(names);
    FlatSplitFree(names, ',');
    NormalizeOfNormal(names);
  }
}

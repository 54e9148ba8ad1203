/** Price data from model catalogues: choosing one provider's price per model, and turning
    prices into the local ratios. Prices are reals (plus NaN and infinities where tested). */
module PriceSelect {

  import opened Basics
  import opened QuotaMath

  const EPSILON := 0.000000001

  predicate NearlyEqual(a: real, b: real) {
    if a > b then a - b < EPSILON else b - a < EPSILON
  }

  /** Byte-wise order of strings. */
  predicate Less(a: string, b: string) {
    if b == "" then false
    else if a == "" then true
    else a[0] < b[0] || (a[0] == b[0] && Less(a[1..], b[1..]))
  }

  lemma {:induction false} LessAsymmetric(a: string, b: string)
    requires Less(a, b)
    ensures !Less(b, a)
  {
    if a != "" && b != "" && a[0] == b[0] {
      LessAsymmetric(a[1..], b[1..]);
    }
  }

  // ---- One candidate per provider and model ----

  datatype Cost = Cost(input: Option<Float>, output: Option<Float>, cacheRead: Option<Float>)

  datatype Candidate = Candidate(provider: string, input: real, output: Option<real>, cacheRead: Option<real>)

  predicate ValidCost(x: Float) { x.Finite? && x.value >= 0.0 }

  /** A cost is usable with a valid input price, no invalid output price, and no output
      price above a zero input price; an invalid cache price is dropped. */
  function BuildCandidate(provider: string, cost: Cost): Option<Candidate> {
    if cost.input.None? || !ValidCost(cost.input.value) then None
    else if cost.output.Some? && !ValidCost(cost.output.value) then None
    else
      var input := cost.input.value.value;
      if input == 0.0 && cost.output.Some? && cost.output.value.value > 0.0 then None
      else Some(Candidate(provider, input,
                          if cost.output.Some? then Some(cost.output.value.value) else None,
                          if cost.cacheRead.Some? && ValidCost(cost.cacheRead.value)
                          then Some(cost.cacheRead.value.value) else None))
  }

  predicate ShouldReplace(current: Candidate, next: Candidate) {
    if (current.input > 0.0) != (next.input > 0.0) then next.input > 0.0
    else if next.input > 0.0 && !NearlyEqual(next.input, current.input) then next.input < current.input
    else Less(next.provider, current.provider)
  }

  function Pick(current: Option<Candidate>, next: Candidate): Candidate {
    if current.None? || ShouldReplace(current.value, next) then next else current.value
  }

  /** What remains of a list of candidates met in this order. */
  function Fold(candidates: seq<Candidate>): Option<Candidate> {
    if candidates == [] then None
    else Some(Pick(Fold(candidates[..|candidates| - 1]), candidates[|candidates| - 1]))
  }

  ghost predicate InProviderOrder(candidates: seq<Candidate>) {
    forall i, j :: 0 <= i < j < |candidates| ==> Less(candidates[i].provider, candidates[j].provider)
  }

  ghost predicate NonNegative(candidates: seq<Candidate>) {
    forall i :: 0 <= i < |candidates| ==> candidates[i].input >= 0.0
  }

  /** One step of the choice: it stays within an epsilon of every price seen before. */
  lemma PickIsCheapest(current: Candidate, next: Candidate, price: real)
    requires current.input >= 0.0 && next.input >= 0.0 && !Less(next.provider, current.provider)
    requires price > 0.0 && current.input > 0.0 && current.input - price < EPSILON
    ensures Pick(Some(current), next).input > 0.0 && Pick(Some(current), next).input - price < EPSILON
  {
  }

  lemma PickSeesNext(current: Candidate, next: Candidate)
    requires current.input >= 0.0 && next.input >= 0.0 && !Less(next.provider, current.provider)
    ensures next.input > 0.0 ==>
              Pick(Some(current), next).input > 0.0 && Pick(Some(current), next).input - next.input < EPSILON
    ensures Pick(Some(current), next).input == 0.0 ==> Pick(Some(current), next) == current
  {
  }

  lemma FoldSnoc(init: seq<Candidate>, last: Candidate)
    ensures Fold(init + [last]) == Some(Pick(Fold(init), last))
  {
    assert (init + [last])[..|init|] == init;
  }

  /** `chosen` is non-zero and less than an epsilon above every non-zero candidate. */
  ghost predicate NearCheapest(chosen: Candidate, candidates: seq<Candidate>) {
    forall i :: 0 <= i < |candidates| && candidates[i].input > 0.0 ==>
      chosen.input > 0.0 && chosen.input - candidates[i].input < EPSILON
  }

  lemma PickStaysNear(current: Candidate, init: seq<Candidate>, last: Candidate)
    requires NearCheapest(current, init) && NonNegative(init + [last]) && current.input >= 0.0
    requires !Less(last.provider, current.provider)
    ensures NearCheapest(Pick(Some(current), last), init + [last])
  {
    var all := init + [last];
    assert all[|init|] == last;
    PickSeesNext(current, last);
    forall i | 0 <= i < |init| && all[i].input > 0.0
      ensures Pick(Some(current), last).input > 0.0 && Pick(Some(current), last).input - all[i].input < EPSILON
    {
      assert init[i] == all[i];
      PickIsCheapest(current, last, init[i].input);
    }
  }

  /** The choice is one of the candidates. With candidates in provider order, it has a
      non-zero price if any has, and then no non-zero price is lower by an epsilon or more,
      although equality up to epsilon is not transitive. Among free candidates, the first. */
  lemma {:induction false} FoldIsCheapest(candidates: seq<Candidate>)
    requires candidates != [] && InProviderOrder(candidates) && NonNegative(candidates)
    ensures Fold(candidates).Some? && Fold(candidates).value in candidates
    ensures NearCheapest(Fold(candidates).value, candidates)
    ensures Fold(candidates).value.input == 0.0 ==> Fold(candidates).value == candidates[0]
  {
    var n := |candidates| - 1;
    var init, last := candidates[..n], candidates[n];
    assert candidates == init + [last];
    FoldSnoc(init, last);
    if n > 0 {
      FoldIsCheapest(init);
      var current := Fold(init).value;
      var k :| 0 <= k < n && init[k] == current;
      assert candidates[k] == current;
      LessAsymmetric(current.provider, last.provider);
      PickSeesNext(current, last);
      PickStaysNear(current, init, last);
    } else {
      assert init == [];
    }
  }

  /** Without that order the choice can drift: three prices within an epsilon of each other,
      neighbour by neighbour, end a full epsilon above the cheapest. */
  lemma DriftWithoutOrder()
    ensures
      var step := 0.0000000009;
      var candidates := [Candidate("c", 1.0, None, None), Candidate("b", 1.0 + step, None, None),
                         Candidate("a", 1.0 + step + step, None, None)];
      Fold(candidates).value.input - candidates[0].input >= EPSILON
  {
    var step := 0.0000000009;
    var a, b, c := Candidate("a", 1.0 + step + step, None, None), Candidate("b", 1.0 + step, None, None),
                   Candidate("c", 1.0, None, None);
    assert [c, b, a][..2] == [c, b] && [c, b][..1] == [c] && [c][..0] == [];
    assert Fold([]) == None && Fold([c]) == Some(c);
    assert ShouldReplace(c, b) && ShouldReplace(b, a);
    assert Fold([c, b]) == Some(b);
  }

  // ---- Selecting over a whole catalogue ----

  datatype Provider = Provider(name: string, models: map<string, Cost>)

  ghost predicate SortedProviders(providers: seq<Provider>) {
    forall i, j :: 0 <= i < j < |providers| ==> Less(providers[i].name, providers[j].name)
  }

  function CandidateOf(p: Provider, model: string): Option<Candidate> {
    if model in p.models then BuildCandidate(p.name, p.models[model]) else None
  }

  /** The usable offers for a model, in provider order. */
  function Candidates(providers: seq<Provider>, model: string): seq<Candidate> {
    if providers == [] then []
    else
      var init, last := Candidates(providers[..|providers| - 1], model), CandidateOf(providers[|providers| - 1], model);
      if last.Some? then init + [last.value] else init
  }

  function Lookup(selected: map<string, Candidate>, model: string): Option<Candidate> {
    if model in selected then Some(selected[model]) else None
  }

  function Offered(current: Option<Candidate>, next: Option<Candidate>): Option<Candidate> {
    if next.Some? then Some(Pick(current, next.value)) else current
  }

  method SelectCandidates(providers: seq<Provider>) returns (selected: map<string, Candidate>)
    ensures forall model :: Lookup(selected, model) == Fold(Candidates(providers, model))
  {
    selected := map[];
    for i := 0 to |providers|
      invariant forall model :: Lookup(selected, model) == Fold(Candidates(providers[..i], model))
    {
      var p := providers[i];
      ghost var before := selected;
      var rest := p.models.Keys;
      while rest != {}
        invariant rest <= p.models.Keys
        invariant forall model :: model in rest || model !in p.models ==>
          Lookup(selected, model) == Lookup(before, model)
        invariant forall model :: model in p.models && model !in rest ==>
          Lookup(selected, model) == Offered(Lookup(before, model), CandidateOf(p, model))
        decreases rest
      {
        var model :| model in rest;
        rest := rest - {model};
        var candidate := BuildCandidate(p.name, p.models[model]);
        assert Lookup(selected, model) == Lookup(before, model);
        if candidate.Some? {
          if model !in selected || ShouldReplace(selected[model], candidate.value) {
            selected := selected[model := candidate.value];
          }
        }
      }
      forall model
        ensures Lookup(selected, model) == Fold(Candidates(providers[..i + 1], model))
      {
        CandidatesNext(providers, i, model);
      }
    }
    assert providers[..|providers|] == providers;
  }

  lemma CandidatesNext(providers: seq<Provider>, i: nat, model: string)
    requires i < |providers|
    ensures Fold(Candidates(providers[..i + 1], model))
            == Offered(Fold(Candidates(providers[..i], model)), CandidateOf(providers[i], model))
  {
    assert providers[..i + 1][..i] == providers[..i];
    var init := Candidates(providers[..i], model);
    if CandidateOf(providers[i], model).Some? {
      var last := CandidateOf(providers[i], model).value;
      assert (init + [last])[..|init|] == init;
    }
  }

  /** One of the providers offers `c`, under its own name. */
  ghost predicate OfferedBy(providers: seq<Provider>, model: string, c: Candidate) {
    exists i :: 0 <= i < |providers| && CandidateOf(providers[i], model) == Some(c) && c.provider == providers[i].name
  }

  lemma {:induction false} CandidatesOffered(providers: seq<Provider>, model: string, c: Candidate)
    requires c in Candidates(providers, model)
    ensures OfferedBy(providers, model, c)
  {
    var n := |providers| - 1;
    var init := providers[..n];
    if c in Candidates(init, model) {
      CandidatesOffered(init, model, c);
      var i :| 0 <= i < n && CandidateOf(init[i], model) == Some(c) && c.provider == init[i].name;
      assert providers[i] == init[i];
    } else {
      assert CandidateOf(providers[n], model) == Some(c);
    }
  }

  lemma {:induction false} CandidatesOrdered(providers: seq<Provider>, model: string)
    requires SortedProviders(providers)
    ensures InProviderOrder(Candidates(providers, model)) && NonNegative(Candidates(providers, model))
    ensures forall c :: c in Candidates(providers, model) ==> OfferedBy(providers, model, c)
  {
    forall c | c in Candidates(providers, model)
      ensures OfferedBy(providers, model, c)
    {
      CandidatesOffered(providers, model, c);
    }
    if providers != [] {
      var n := |providers| - 1;
      var init := providers[..n];
      CandidatesOrdered(init, model);
      forall k | 0 <= k < |Candidates(init, model)|
        ensures Less(Candidates(init, model)[k].provider, providers[n].name)
      {
        var c := Candidates(init, model)[k];
        CandidatesOffered(init, model, c);
        var i :| 0 <= i < n && CandidateOf(init[i], model) == Some(c) && c.provider == init[i].name;
        assert providers[i] == init[i];
      }
    }
  }

  /** For every model some provider offers: the selected offer is a real one, and if any
      offer has a non-zero price, the selected price is non-zero and less than an epsilon
      above every non-zero price, hence above the cheapest. */
  lemma SelectionIsCheapest(providers: seq<Provider>, model: string)
    requires SortedProviders(providers) && Candidates(providers, model) != []
    ensures Fold(Candidates(providers, model)).Some?
    ensures
      var chosen := Fold(Candidates(providers, model)).value;
      chosen in Candidates(providers, model) && NearCheapest(chosen, Candidates(providers, model))
  {
    CandidatesOrdered(providers, model);
    FoldIsCheapest(Candidates(providers, model));
  }

  // ---- Ratios ----

  const USD := 500.0
  const PER_MILLION := 1000000.0

  datatype Ratios = Ratios(model: real, completion: Option<real>, cache: Option<real>)

  function RoundRatio(x: real): real {
    Round(x * 1000000.0) as real / 1000000.0
  }

  /** Prices in dollars per million tokens. */
  function CatalogueRatios(c: Candidate): Ratios
    requires c.input >= 0.0
  {
    if c.input == 0.0 then Ratios(0.0, None, None)
    else Ratios(RoundRatio(c.input * USD / 1000.0),
                if c.output.Some? then Some(RoundRatio(c.output.value / c.input)) else None,
                if c.cacheRead.Some? then Some(RoundRatio(c.cacheRead.value / c.input)) else None)
  }

  /** Prices in dollars per token, None where the text was not a number. A model is skipped
      without any price, with a negative one, or with a price for output only. */
  function PerTokenRatios(prompt: Option<real>, completion: Option<real>, cache: Option<real>): Option<Ratios> {
    var p := if prompt.Some? then prompt.value else 0.0;
    var c := if completion.Some? then completion.value else 0.0;
    if prompt.None? && completion.None? then None
    else if p < 0.0 || c < 0.0 then None
    else if p == 0.0 && c == 0.0 then Some(Ratios(0.0, None, None))
    else if p <= 0.0 then None
    else Some(Ratios(RoundRatio(p * 1000.0 * USD), Some(RoundRatio(c / p)),
                     if cache.Some? && cache.value >= 0.0 then Some(RoundRatio(cache.value / p)) else None))
  }

  function PerMillion(price: real): real { price * PER_MILLION }

  lemma ScaledQuotient(a: real, b: real)
    requires b > 0.0
    ensures PerMillion(b) > 0.0 && PerMillion(a) / PerMillion(b) == a / b
  {
    var q := a / b;
    assert a == q * b;
    assert PerMillion(a) == q * PerMillion(b);
  }

  /** The same prices in either unit give the same ratios, and are usable alike. */
  lemma ConversionsAgree(provider: string, prompt: real, completion: real, cache: Option<real>)
    ensures
      var scaled := Cost(Some(Finite(PerMillion(prompt))), Some(Finite(PerMillion(completion))),
                         if cache.Some? then Some(Finite(PerMillion(cache.value))) else None);
      var candidate := BuildCandidate(provider, scaled);
      var ratios := PerTokenRatios(Some(prompt), Some(completion), cache);
      && (candidate.Some? <==> ratios.Some?)
      && (candidate.Some? ==> CatalogueRatios(candidate.value) == ratios.value)
  {
    if prompt > 0.0 && completion >= 0.0 {
      assert PerMillion(prompt) * USD / 1000.0 == prompt * 1000.0 * USD;
      ScaledQuotient(completion, prompt);
      if cache.Some? {
        ScaledQuotient(cache.value, prompt);
      }
    }
  }
}

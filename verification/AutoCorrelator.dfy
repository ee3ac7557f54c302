/** The pass itself, and what it guarantees over whole runs
    (backend/app/services/auto_correlator.py:36-132). */
module AutoCorrelator {
  import opened Wrappers
  import opened Text
  import opened Occurrences
  import opened AutoCorrelation

  // --- the imperative pass ---

  lemma BookGrows(uses: seq<Use>, u: Use)
    ensures BookOf(uses + [u]) == AddUse(BookOf(uses), u)
  {
    assert (uses + [u])[..|uses|] == uses;
  }

  method FindSuppliers(sources: seq<Occurrence>, sink: Occurrence, segments: seq<string>, minLength: nat)
    returns (candidates: seq<Occurrence>)
    ensures candidates == Suppliers(sources, sink, segments, minLength)
  {
    candidates := [];
    for j := 0 to |sources|
      invariant candidates == Suppliers(sources[..j], sink, segments, minLength)
    {
      assert sources[..j + 1][..j] == sources[..j];
      if Supplies(sources[j], sink, segments, minLength) {
        candidates := candidates + [sources[j]];
      }
    }
    assert sources[..|sources|] == sources;
  }

  method Choose(sources: seq<Occurrence>, sink: Occurrence, segments: seq<string>, minLength: nat) returns (c: Choice)
    ensures c == ChoiceFor(sources, sink, segments, minLength)
  {
    if !IsTarget(sink) {
      return Nothing;
    }
    var candidates := FindSuppliers(sources, sink, segments, minLength);
    if candidates != [] {
      return Exact(candidates[0]);
    }
    return if IsPlaceholder(sink.raw) then Pending else Nothing;
  }

  /** The decisions for the sinks of one execution; none depends on another. */
  method ChooseAll(e: Execution, sources: seq<Occurrence>, minLength: nat) returns (choices: seq<Choice>)
    ensures choices == Choices(e, sources, minLength)
  {
    choices := [];
    for k := 0 to |e.sinks|
      invariant choices == Choices(e, sources, minLength)[..k]
    {
      var c := Choose(sources, e.sinks[k], e.segments, minLength);
      choices := choices + [c];
    }
  }

  /** What the first loop updates. */
  datatype Pass = Pass(book: Book, chosen: Selection, pending: seq<nat>)

  function Enter(i: nat, k: nat, sink: Occurrence, c: Choice, p: Pass): Pass {
    match c
    case Exact(src) => Pass(AddUse(p.book, ConcreteUse(i, k, sink, src)), Select(p.chosen, src), p.pending)
    case Pending => p.(pending := p.pending + [k])
    case Nothing => p
  }

  /** The state after `k` sinks. */
  predicate AfterSinks(i: nat, sinks: seq<Occurrence>, choices: seq<Choice>, chosen0: Selection, uses: seq<Use>, k: nat,
                       p: Pass) {
    && k <= |choices| == |sinks|
    && p.book == BookOf(uses + ExactUses(i, sinks, choices, k))
    && p.chosen == SelectedBy(chosen0, choices, k) && p.pending == PendingOf(choices, k)
  }

  lemma NextSink(i: nat, sinks: seq<Occurrence>, choices: seq<Choice>, chosen0: Selection, uses: seq<Use>, k: nat,
                 p: Pass)
    requires AfterSinks(i, sinks, choices, chosen0, uses, k, p) && k < |sinks|
    ensures AfterSinks(i, sinks, choices, chosen0, uses, k + 1, Enter(i, k, sinks[k], choices[k], p))
  {
    var before := ExactUses(i, sinks, choices, k);
    if choices[k].Exact? {
      var use := ConcreteUse(i, k, sinks[k], choices[k].src);
      Associates(uses, before, [use]);
      BookGrows(uses + before, use);
    }
  }

  /** Concrete values first: the loop that enters them and collects the placeholders. */
  method ResolveConcrete(i: nat, sinks: seq<Occurrence>, choices: seq<Choice>, b0: Book, chosen0: Selection,
                         ghost uses: seq<Use>)
    returns (p: Pass)
    requires |choices| == |sinks| && b0 == BookOf(uses)
    ensures AfterSinks(i, sinks, choices, chosen0, uses, |choices|, p)
  {
    p := Pass(b0, chosen0, []);
    assert uses + [] == uses;
    for k := 0 to |sinks|
      invariant AfterSinks(i, sinks, choices, chosen0, uses, k, p)
    {
      NextSink(i, sinks, choices, chosen0, uses, k, p);
      p := Enter(i, k, sinks[k], choices[k], p);
    }
  }

  function EnterGuess(i: nat, k: nat, sink: Occurrence, src: Option<Occurrence>, b: Book): Book {
    if src.Some? then AddUse(b, GuessedUse(i, k, sink, src.value)) else b
  }

  lemma NextPlaceholder(i: nat, sinks: seq<Occurrence>, guesses: seq<Option<Occurrence>>, pending: seq<nat>, m: nat,
                        uses: seq<Use>)
    requires |guesses| == |sinks| && m < |pending| && forall x | 0 <= x < |pending| :: pending[x] < |sinks|
    ensures
      var k, before := pending[m], InferredUses(i, sinks, guesses, pending[..m]);
      BookOf(uses + InferredUses(i, sinks, guesses, pending[..m + 1]))
      == EnterGuess(i, k, sinks[k], guesses[k], BookOf(uses + before))
  {
    assert pending[..m + 1][..m] == pending[..m];
    var k, before := pending[m], InferredUses(i, sinks, guesses, pending[..m]);
    if guesses[k].Some? {
      var use := GuessedUse(i, k, sinks[k], guesses[k].value);
      Associates(uses, before, [use]);
      BookGrows(uses + before, use);
    } else {
      assert before + [] == before;
    }
  }

  /** Then the placeholders that were left over. */
  method ResolvePlaceholders(i: nat, sinks: seq<Occurrence>, guesses: seq<Option<Occurrence>>, pending: seq<nat>,
                             b0: Book, ghost uses: seq<Use>)
    returns (b: Book)
    requires b0 == BookOf(uses) && |guesses| == |sinks| && forall x | 0 <= x < |pending| :: pending[x] < |sinks|
    ensures b == BookOf(uses + InferredUses(i, sinks, guesses, pending))
  {
    b := b0;
    assert uses + [] == uses;
    for m := 0 to |pending|
      invariant b == BookOf(uses + InferredUses(i, sinks, guesses, pending[..m]))
    {
      NextPlaceholder(i, sinks, guesses, pending, m, uses);
      b := EnterGuess(i, pending[m], sinks[pending[m]], guesses[pending[m]], b);
    }
    assert pending[..|pending|] == pending;
  }

  lemma PartsGrow(parts: seq<seq<Use>>, i: nat)
    requires i < |parts|
    ensures Together(parts[..i + 1]) == Together(parts[..i]) + parts[i]
  {
    assert parts[..i + 1][..i] == parts[..i];
  }

  /** One turn of the outer loop: the request of execution `i`. */
  method CorrelateOne(run: seq<Execution>, minLength: nat, i: nat, sources: seq<Occurrence>, b0: Book,
                      chosen0: Selection, ghost uses: seq<Use>)
    returns (b: Book, chosen: Selection)
    requires i < |run| && sources == SourcesBefore(run, i) && chosen0 == SelectedBefore(run, minLength, i)
    requires b0 == BookOf(uses)
    ensures b == BookOf(uses + UsesOf(run, minLength, i)) && chosen == SelectedBefore(run, minLength, i + 1)
  {
    var choices := ChooseAll(run[i], sources, minLength);
    var p := ResolveConcrete(i, run[i].sinks, choices, b0, chosen0, uses);
    chosen := p.chosen;
    var guesses := Guesses(run[i], sources, chosen);
    ghost var exact := ExactUses(i, run[i].sinks, choices, |choices|);
    b := ResolvePlaceholders(i, run[i].sinks, guesses, p.pending, p.book, uses + exact);
    Associates(uses, exact, InferredUses(i, run[i].sinks, guesses, p.pending));
  }

  /** The causal pass over the run in its recorded order. */
  method AutoCorrelate(recorded: seq<Execution>, minLength: nat) returns (rules: seq<Rule>)
    ensures rules == Rules(recorded, minLength)
  {
    var run := Sorted(recorded);
    var sources: seq<Occurrence> := [];
    var b: Book := Book([], {});
    var chosen: Selection := map[];
    ghost var parts := Parts(run, minLength);
    for i := 0 to |run|
      invariant sources == SourcesBefore(run, i) && chosen == SelectedBefore(run, minLength, i)
      invariant b == BookOf(Together(parts[..i]))
    {
      b, chosen := CorrelateOne(run, minLength, i, sources, b, chosen, Together(parts[..i]));
      PartsGrow(parts, i);
      sources := sources + Produced(run[i]);
    }
    assert parts[..|parts|] == parts;
    rules := b.rules;
  }
}

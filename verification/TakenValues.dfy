/** Which request values of a run take a response value, sink by sink, and in which order the pass enters
    them (backend/app/services/auto_correlator.py:61-118). */
module TakenValues {
  import opened Wrappers
  import opened Occurrences
  import opened AutoCorrelation
  import opened CausalCorrelation

  /** What a sink takes: its concrete source or, if it is a placeholder, the source guessed for it. */
  function TakenFrom(i: nat, k: nat, sink: Occurrence, choice: Choice, guess: Option<Occurrence>): Option<Use> {
    match choice
    case Exact(src) => Some(ConcreteUse(i, k, sink, src))
    case Pending => if guess.Some? then Some(GuessedUse(i, k, sink, guess.value)) else None
    case Nothing => None
  }

  /** What sink `k` of request `i` takes, from the responses before and the array rows selected so far. */
  function Taken(run: seq<Execution>, minLength: nat, i: nat, k: nat): Option<Use>
    requires i < |run| && k < |run[i].sinks|
  {
    var sources, sink := SourcesBefore(run, i), run[i].sinks[k];
    TakenFrom(i, k, sink, ChoiceFor(sources, sink, run[i].segments, minLength),
              Inferred(sources, SelectedBefore(run, minLength, i + 1), sink))
  }

  predicate IsTaken(run: seq<Execution>, minLength: nat, u: Use) {
    && u.execution < |run| && u.sink < |run[u.execution].sinks|
    && Taken(run, minLength, u.execution, u.sink) == Some(u)
  }

  /** Requests in order; in one request the concrete values before the placeholders; each in order. */
  predicate Precedes(u: Use, v: Use) {
    || u.execution < v.execution
    || (u.execution == v.execution && if u.inferred == v.inferred then u.sink < v.sink else v.inferred)
  }

  predicate Ordered(uses: seq<Use>) {
    forall x, y | 0 <= x < y < |uses| :: Precedes(uses[x], uses[y])
  }

  // --- one request ---

  lemma {:induction false} ExactAreEntered(i: nat, sinks: seq<Occurrence>, choices: seq<Choice>, k: nat)
    requires k <= |choices| == |sinks|
    ensures
      var uses := ExactUses(i, sinks, choices, k);
      && (forall x: nat | x < k && choices[x].Exact? :: ConcreteUse(i, x, sinks[x], choices[x].src) in uses)
      && Ordered(uses)
  {
    if k > 0 {
      ExactAreEntered(i, sinks, choices, k - 1);
      ExactUsesAre(i, sinks, choices, k - 1);
      var before := ExactUses(i, sinks, choices, k - 1);
      assert forall x | 0 <= x < |before| :: before[x] in before;
    }
  }

  lemma {:induction false} PendingAreListed(choices: seq<Choice>, k: nat)
    requires k <= |choices|
    ensures forall x: nat | x < k && choices[x].Pending? :: x in PendingOf(choices, k)
  {
    if k > 0 {
      PendingAreListed(choices, k - 1);
    }
  }

  lemma {:induction false} GuessesAreEntered(i: nat, sinks: seq<Occurrence>, guesses: seq<Option<Occurrence>>,
                                             pending: seq<nat>)
    requires |guesses| == |sinks| && forall x | 0 <= x < |pending| :: pending[x] < |sinks|
    requires forall x, y | 0 <= x < y < |pending| :: pending[x] < pending[y]
    ensures
      var uses := InferredUses(i, sinks, guesses, pending);
      && (forall k | k in pending && guesses[k].Some? :: GuessedUse(i, k, sinks[k], guesses[k].value) in uses)
      && Ordered(uses)
  {
    if pending != [] {
      var front := pending[..|pending| - 1];
      GuessesAreEntered(i, sinks, guesses, front);
      InferredUsesAre(i, sinks, guesses, front);
      var before := InferredUses(i, sinks, guesses, front);
      assert forall x | 0 <= x < |before| :: before[x] in before && before[x].sink in front;
    }
  }

  lemma RequestEnters(i: nat, e: Execution, choices: seq<Choice>, guesses: seq<Option<Occurrence>>)
    requires |choices| == |guesses| == |e.sinks|
    ensures
      var uses := UsesIn(i, e, choices, guesses);
      && Ordered(uses)
      && (forall u :: u in uses <==>
            && u.execution == i && u.sink < |e.sinks|
            && TakenFrom(i, u.sink, e.sinks[u.sink], choices[u.sink], guesses[u.sink]) == Some(u))
  {
    var pending := PendingOf(choices, |choices|);
    var exact, guessed := ExactUses(i, e.sinks, choices, |choices|), InferredUses(i, e.sinks, guesses, pending);
    ExactAreEntered(i, e.sinks, choices, |choices|);
    ExactUsesAre(i, e.sinks, choices, |choices|);
    PendingAreListed(choices, |choices|);
    GuessesAreEntered(i, e.sinks, guesses, pending);
    InferredUsesAre(i, e.sinks, guesses, pending);
    forall x, y | 0 <= x < |exact| && 0 <= y < |guessed|
      ensures Precedes(exact[x], guessed[y])
    {
      assert exact[x] in exact && guessed[y] in guessed;
    }
  }

  lemma UsesOfAre(run: seq<Execution>, minLength: nat, i: nat)
    requires i < |run|
    ensures Ordered(UsesOf(run, minLength, i)) && AllIn(UsesOf(run, minLength, i), i)
    ensures forall u :: u in UsesOf(run, minLength, i) <==> u.execution == i && IsTaken(run, minLength, u)
  {
    var e, sources := run[i], SourcesBefore(run, i);
    RequestEnters(i, e, Choices(e, sources, minLength), Guesses(e, sources, SelectedBefore(run, minLength, i + 1)));
    var uses := UsesOf(run, minLength, i);
    forall x | 0 <= x < |uses|
      ensures uses[x].execution == i
    {
      assert uses[x] in uses;
    }
  }

  // --- the run ---

  lemma {:induction false} TogetherIsOrdered(parts: seq<seq<Use>>)
    requires forall i | 0 <= i < |parts| :: Ordered(parts[i]) && AllIn(parts[i], i)
    ensures Ordered(Together(parts)) && AllBefore(Together(parts), |parts|)
  {
    if parts != [] {
      TogetherIsOrdered(parts[..|parts| - 1]);
    }
  }

  lemma {:induction false} PartIsIn(parts: seq<seq<Use>>, i: nat, u: Use)
    requires i < |parts| && u in parts[i]
    ensures u in Together(parts)
    decreases |parts|
  {
    if i < |parts| - 1 {
      PartIsIn(parts[..|parts| - 1], i, u);
    }
  }

  /** The uses of a run are what its sinks take, no more and no less, in the order of the pass. */
  lemma UsesAreTaken(run: seq<Execution>, minLength: nat)
    ensures forall u :: u in Uses(run, minLength) <==> IsTaken(run, minLength, u)
    ensures Ordered(Uses(run, minLength))
  {
    var parts := Parts(run, minLength);
    forall i: nat | i < |run|
      ensures Ordered(parts[i]) && AllIn(parts[i], i)
    {
      UsesOfAre(run, minLength, i);
    }
    TogetherIsOrdered(parts);
    forall u
      ensures u in Together(parts) <==> IsTaken(run, minLength, u)
    {
      if u in Together(parts) {
        var i := PartOf(parts, u);
        UsesOfAre(run, minLength, i);
      }
      if IsTaken(run, minLength, u) {
        UsesOfAre(run, minLength, u.execution);
        PartIsIn(parts, u.execution, u);
      }
    }
  }
}

/** What the automatic pass guarantees over whole runs: causality, precedence, one rule for each use,
    the earliest source (backend/app/services/auto_correlator.py:1-6, 36-132). */
module CausalCorrelation {
  import opened Wrappers
  import opened Text
  import opened Naming
  import opened Occurrences
  import opened AutoCorrelation

  // --- causality ---

  lemma {:induction false} SourcesOfPrefix(run: seq<Execution>, n: nat, i: nat)
    requires i <= n <= |run|
    ensures SourcesBefore(run[..n], i) == SourcesBefore(run, i)
  {
    if i > 0 {
      SourcesOfPrefix(run, n, i - 1);
    }
  }

  lemma {:induction false} SelectedOfPrefix(run: seq<Execution>, minLength: nat, n: nat, i: nat)
    requires i <= n <= |run|
    ensures SelectedBefore(run[..n], minLength, i) == SelectedBefore(run, minLength, i)
  {
    if i > 0 {
      SelectedOfPrefix(run, minLength, n, i - 1);
      SourcesOfPrefix(run, n, i - 1);
    }
  }

  /** Two runs that agree on execution `i` and on what was known before it. */
  predicate SameAt(run: seq<Execution>, other: seq<Execution>, minLength: nat, i: nat) {
    && i < |run| && i < |other| && run[i] == other[i]
    && SourcesBefore(run, i) == SourcesBefore(other, i)
    && SelectedBefore(run, minLength, i + 1) == SelectedBefore(other, minLength, i + 1)
  }

  lemma SameUsesAt(run: seq<Execution>, other: seq<Execution>, minLength: nat, i: nat)
    requires SameAt(run, other, minLength, i)
    ensures UsesOf(run, minLength, i) == UsesOf(other, minLength, i)
  {
  }

  /** What a request uses is decided by the run up to that request. */
  lemma UsesOfOneOfPrefix(run: seq<Execution>, minLength: nat, n: nat, i: nat)
    requires i < n <= |run|
    ensures UsesOf(run[..n], minLength, i) == UsesOf(run, minLength, i)
  {
    SourcesOfPrefix(run, n, i);
    SelectedOfPrefix(run, minLength, n, i + 1);
    SameUsesAt(run[..n], run, minLength, i);
  }

  lemma PartsOfPrefix(run: seq<Execution>, minLength: nat, n: nat)
    requires n <= |run|
    ensures Parts(run[..n], minLength) == Parts(run, minLength)[..n]
  {
    forall i | 0 <= i < n
      ensures Parts(run[..n], minLength)[i] == Parts(run, minLength)[i]
    {
      UsesOfOneOfPrefix(run, minLength, n, i);
    }
  }

  lemma {:induction false} PartsSplit(parts: seq<seq<Use>>, n: nat) returns (more: seq<Use>)
    requires n <= |parts|
    ensures Together(parts) == Together(parts[..n]) + more
    decreases |parts|
  {
    if n == |parts| {
      more := [];
      assert parts[..n] == parts;
    } else {
      var front := parts[..|parts| - 1];
      var before := PartsSplit(front, n);
      assert front[..n] == parts[..n];
      more := before + parts[|parts| - 1];
      Associates(Together(parts[..n]), before, parts[|parts| - 1]);
    }
  }

  /** The same rules under the same names, each with at least the same consumers, possibly more. */
  predicate Extends(a: seq<Rule>, b: seq<Rule>) {
    && |a| <= |b|
    && forall i | 0 <= i < |a| ::
         a[i].name == b[i].name && a[i].producer == b[i].producer && a[i].consumers <= b[i].consumers
  }

  lemma AddUseExtends(b: Book, u: Use)
    ensures Extends(b.rules, AddUse(b, u).rules)
  {
  }

  lemma ExtendsFurther(a: seq<Rule>, b: seq<Rule>, c: seq<Rule>)
    requires Extends(a, b) && Extends(b, c)
    ensures Extends(a, c)
  {
  }

  lemma {:induction false} BookExtends(uses: seq<Use>, more: seq<Use>)
    ensures Extends(BookOf(uses).rules, BookOf(uses + more).rules)
    decreases |more|
  {
    if more == [] {
      assert uses + more == uses;
    } else {
      var front, last := more[..|more| - 1], more[|more| - 1];
      BookExtends(uses, front);
      assert (uses + more)[..|uses + more| - 1] == uses + front;
      AddUseExtends(BookOf(uses + front), last);
      ExtendsFurther(BookOf(uses).rules, BookOf(uses + front).rules, BookOf(uses + more).rules);
    }
  }

  /** Running the pass on the beginning of a run gives the beginning of the full result. */
  lemma RulesOfPrefix(run: seq<Execution>, minLength: nat, n: nat)
    requires InOrder(run) && n <= |run|
    ensures Extends(Rules(run[..n], minLength), Rules(run, minLength))
  {
    OrderIsKept(run);
    OrderIsKept(run[..n]);
    PartsOfPrefix(run, minLength, n);
    var more := PartsSplit(Parts(run, minLength), n);
    BookExtends(Uses(run[..n], minLength), more);
  }

  // --- where the sources of uses come from ---

  predicate Within(part: seq<Occurrence>, all: seq<Occurrence>) {
    forall o | o in part :: o in all
  }

  lemma {:induction false} NamesakesAreSources(sources: seq<Occurrence>, name: string)
    ensures Within(Namesakes(sources, name), sources)
  {
    if sources != [] {
      NamesakesAreSources(sources[..|sources| - 1], name);
    }
  }

  lemma {:induction false} OutsideAreMatches(matches: seq<Occurrence>)
    ensures Within(OutsideArrays(matches), matches)
  {
    if matches != [] {
      OutsideAreMatches(matches[..|matches| - 1]);
    }
  }

  lemma {:induction false} MembersAreMatches(matches: seq<Occurrence>, group: Group)
    ensures Within(Members(matches, group), matches)
  {
    if matches != [] {
      MembersAreMatches(matches[..|matches| - 1], group);
    }
  }

  lemma {:induction false} InRowsAreMembers(members: seq<Occurrence>, rows: set<string>)
    ensures Within(InRows(members, rows), members)
  {
    if members != [] {
      InRowsAreMembers(members[..|members| - 1], rows);
    }
  }

  lemma RemainingAreMatches(matches: seq<Occurrence>, chosen: Selection, group: Group)
    ensures Within(Remaining(matches, chosen, group), matches)
  {
    MembersAreMatches(matches, group);
    InRowsAreMembers(Members(matches, group), Selected(chosen, group));
  }

  lemma {:induction false} RepresentativesAreMatches(matches: seq<Occurrence>, chosen: Selection, groups: seq<Group>)
    ensures
      var r := Representatives(matches, chosen, groups);
      r.Some? ==> Within(r.value, matches)
  {
    if groups != [] {
      RepresentativesAreMatches(matches, chosen, groups[..|groups| - 1]);
      RemainingAreMatches(matches, chosen, groups[|groups| - 1]);
    }
  }

  /** A placeholder is only ever filled from a known source of the same field name, and all the
      candidates that were left have its value. */
  lemma InferredIsSource(sources: seq<Occurrence>, chosen: Selection, sink: Occurrence)
    ensures
      var src := Inferred(sources, chosen, sink);
      src.Some? ==> src.value in sources
  {
    var matches := Namesakes(sources, FieldName(sink));
    NamesakesAreSources(sources, FieldName(sink));
    OutsideAreMatches(matches);
    RepresentativesAreMatches(matches, chosen, Groups(matches));
  }

  lemma {:induction false} FilterIsPart(e: Execution, sources: seq<Occurrence>)
    ensures Within(Filter(e, sources), sources)
  {
    if sources != [] {
      FilterIsPart(e, sources[..|sources| - 1]);
    }
  }

  /** A known source was produced by an earlier execution. */
  predicate ProducedBefore(run: seq<Execution>, i: nat, src: Occurrence)
    requires i <= |run|
  {
    exists j :: 0 <= j < i && run[j].usable && src in run[j].sources
  }

  lemma {:induction false} SourcesAreProduced(run: seq<Execution>, i: nat, src: Occurrence)
    requires i <= |run| && src in SourcesBefore(run, i)
    ensures ProducedBefore(run, i, src)
  {
    FilterIsPart(run[i - 1], run[i - 1].sources);
    if src in SourcesBefore(run, i - 1) {
      SourcesAreProduced(run, i - 1, src);
    } else {
      assert run[i - 1].usable && src in run[i - 1].sources;
    }
  }

  // --- the uses of one execution ---

  lemma {:induction false} ExactUsesAre(i: nat, sinks: seq<Occurrence>, choices: seq<Choice>, k: nat)
    requires k <= |choices| == |sinks|
    ensures
      var uses := ExactUses(i, sinks, choices, k);
      && (forall u | u in uses :: u.sink < k && choices[u.sink] == Exact(u.src)
                                  && u == ConcreteUse(i, u.sink, sinks[u.sink], u.src))
      && (forall x, y | 0 <= x < y < |uses| :: uses[x].sink != uses[y].sink)
  {
    if k > 0 {
      ExactUsesAre(i, sinks, choices, k - 1);
      var before := ExactUses(i, sinks, choices, k - 1);
      assert forall x | 0 <= x < |before| :: before[x] in before;
    }
  }

  lemma {:induction false} InferredUsesAre(i: nat, sinks: seq<Occurrence>, guesses: seq<Option<Occurrence>>,
                                           pending: seq<nat>)
    requires |guesses| == |sinks| && forall x | 0 <= x < |pending| :: pending[x] < |sinks|
    requires forall x, y | 0 <= x < y < |pending| :: pending[x] < pending[y]
    ensures
      var uses := InferredUses(i, sinks, guesses, pending);
      && (forall u | u in uses :: u.sink in pending && guesses[u.sink] == Some(u.src)
                                  && u == GuessedUse(i, u.sink, sinks[u.sink], u.src))
      && (forall x, y | 0 <= x < y < |uses| :: uses[x].sink != uses[y].sink)
  {
    if pending != [] {
      var front := pending[..|pending| - 1];
      InferredUsesAre(i, sinks, guesses, front);
      var before := InferredUses(i, sinks, guesses, front);
      assert forall x | 0 <= x < |before| :: before[x] in before;
      assert forall k | k in front :: k in pending && k < pending[|pending| - 1];
    }
  }

  /** No sink of the execution is used twice: what has a concrete source is not pending. */
  lemma UsesInAre(i: nat, e: Execution, choices: seq<Choice>, guesses: seq<Option<Occurrence>>)
    requires |choices| == |guesses| == |e.sinks|
    ensures
      var uses := UsesIn(i, e, choices, guesses);
      && (forall x, y | 0 <= x < y < |uses| :: uses[x].sink != uses[y].sink)
      && (forall u | u in uses ::
            && u.execution == i && u.sink < |e.sinks| && LocationOf(u.consumer) == LocationOf(e.sinks[u.sink])
            && u.consumer.index == e.sinks[u.sink].index && u.consumer.raw == e.sinks[u.sink].raw
            && u.suggested == SuggestedName(u.src.key, u.src.path)
            && (if u.inferred then choices[u.sink].Pending? && guesses[u.sink] == Some(u.src)
                else choices[u.sink] == Exact(u.src)))
  {
    var pending := PendingOf(choices, |choices|);
    var exact, inferred := ExactUses(i, e.sinks, choices, |choices|), InferredUses(i, e.sinks, guesses, pending);
    ExactUsesAre(i, e.sinks, choices, |choices|);
    InferredUsesAre(i, e.sinks, guesses, pending);
    forall x, y | 0 <= x < |exact| && 0 <= y < |inferred|
      ensures exact[x].sink != inferred[y].sink
    {
      assert exact[x] in exact && inferred[y] in inferred;
    }
  }

  // --- every use of a run ---

  /** A use takes an earlier response's value for a target sink of its request: the first listed
      source that supplies the sink, or, for a placeholder that none supplies, a guess. */
  ghost predicate Lawful(run: seq<Execution>, minLength: nat, u: Use) {
    && u.execution < |run| && u.sink < |run[u.execution].sinks|
    && LocationOf(u.consumer) == LocationOf(run[u.execution].sinks[u.sink])
    && u.consumer.index == run[u.execution].sinks[u.sink].index
    && IsIdent(u.suggested)
    && ProducedBefore(run, u.execution, u.src)
    && (!u.inferred ==> IsEarliestSupplier(run, minLength, u))
    && (u.inferred ==> NothingSupplies(run, minLength, u) && IsPlaceholder(run[u.execution].sinks[u.sink].raw))
  }

  predicate SuppliesUse(run: seq<Execution>, minLength: nat, u: Use, src: Occurrence)
    requires u.execution < |run| && u.sink < |run[u.execution].sinks|
  {
    Supplies(src, run[u.execution].sinks[u.sink], run[u.execution].segments, minLength)
  }

  predicate IsEarliestSupplier(run: seq<Execution>, minLength: nat, u: Use)
    requires u.execution < |run| && u.sink < |run[u.execution].sinks|
  {
    var sources := SourcesBefore(run, u.execution);
    exists k :: 0 <= k < |sources| && sources[k] == u.src && SuppliesUse(run, minLength, u, sources[k])
      && forall j | 0 <= j < k :: !SuppliesUse(run, minLength, u, sources[j])
  }

  predicate NothingSupplies(run: seq<Execution>, minLength: nat, u: Use)
    requires u.execution < |run| && u.sink < |run[u.execution].sinks|
  {
    var sources := SourcesBefore(run, u.execution);
    forall k | 0 <= k < |sources| :: !SuppliesUse(run, minLength, u, sources[k])
  }

  lemma ChoiceIs(sources: seq<Occurrence>, sink: Occurrence, segments: seq<string>, minLength: nat)
    ensures
      var c := ChoiceFor(sources, sink, segments, minLength);
      && (c.Exact? ==> exists k :: 0 <= k < |sources| && sources[k] == c.src
                         && Supplies(sources[k], sink, segments, minLength)
                         && forall j | 0 <= j < k :: !Supplies(sources[j], sink, segments, minLength))
      && (c.Pending? ==> IsPlaceholder(sink.raw)
                         && forall k | 0 <= k < |sources| :: !Supplies(sources[k], sink, segments, minLength))
  {
    FirstSupplierIsEarliest(sources, sink, segments, minLength);
  }

  lemma UseIsLawful(run: seq<Execution>, minLength: nat, i: nat, u: Use)
    requires i < |run| && u in UsesOf(run, minLength, i)
    ensures u.execution == i && Lawful(run, minLength, u)
  {
    var e, sources := run[i], SourcesBefore(run, i);
    var choices, chosen := Choices(e, sources, minLength), SelectedBefore(run, minLength, i + 1);
    UsesInAre(i, e, choices, Guesses(e, sources, chosen));
    ChoiceIs(sources, e.sinks[u.sink], e.segments, minLength);
    InferredIsSource(sources, chosen, e.sinks[u.sink]);
    assert u.src in sources;
    SuggestedIsIdent(u.src.key, u.src.path);
    SourcesAreProduced(run, i, u.src);
  }

  lemma OneUseEach(run: seq<Execution>, minLength: nat, i: nat)
    requires i < |run|
    ensures
      var uses := UsesOf(run, minLength, i);
      forall x, y | 0 <= x < y < |uses| :: uses[x].sink != uses[y].sink
  {
    var sources := SourcesBefore(run, i);
    UsesInAre(i, run[i], Choices(run[i], sources, minLength),
              Guesses(run[i], sources, SelectedBefore(run, minLength, i + 1)));
  }

  /** No sink of any request is used twice. */
  predicate UsedOnce(uses: seq<Use>) {
    forall x, y | 0 <= x < y < |uses| :: uses[x].execution != uses[y].execution || uses[x].sink != uses[y].sink
  }

  predicate AllIn(uses: seq<Use>, execution: nat) {
    forall x | 0 <= x < |uses| :: uses[x].execution == execution
  }

  predicate AllBefore(uses: seq<Use>, execution: nat) {
    forall x | 0 <= x < |uses| :: uses[x].execution < execution
  }

  lemma UsedOnceTogether(a: seq<Use>, b: seq<Use>, n: nat)
    requires UsedOnce(a) && UsedOnce(b) && AllBefore(a, n) && AllIn(b, n)
    ensures UsedOnce(a + b) && AllBefore(a + b, n + 1)
  {
  }

  lemma {:induction false} PartsAreUsedOnce(parts: seq<seq<Use>>)
    requires forall i | 0 <= i < |parts| :: UsedOnce(parts[i]) && AllIn(parts[i], i)
    ensures UsedOnce(Together(parts)) && AllBefore(Together(parts), |parts|)
  {
    if parts != [] {
      PartsAreUsedOnce(parts[..|parts| - 1]);
      UsedOnceTogether(Together(parts[..|parts| - 1]), parts[|parts| - 1], |parts| - 1);
    }
  }

  lemma {:induction false} PartOf(parts: seq<seq<Use>>, u: Use) returns (i: nat)
    requires u in Together(parts)
    ensures i < |parts| && u in parts[i]
  {
    if u in parts[|parts| - 1] {
      i := |parts| - 1;
    } else {
      i := PartOf(parts[..|parts| - 1], u);
    }
  }

  /** All uses are lawful, and no sink of any request is used twice. */
  lemma UsesAreLawful(run: seq<Execution>, minLength: nat)
    ensures forall u | u in Uses(run, minLength) :: Lawful(run, minLength, u)
    ensures UsedOnce(Uses(run, minLength))
  {
    var parts := Parts(run, minLength);
    forall i | 0 <= i < |run|
      ensures UsedOnce(parts[i]) && AllIn(parts[i], i)
    {
      OneUseEach(run, minLength, i);
      forall x | 0 <= x < |parts[i]|
        ensures parts[i][x].execution == i
      {
        UseIsLawful(run, minLength, i, parts[i][x]);
      }
    }
    PartsAreUsedOnce(parts);
    forall u | u in Together(parts)
      ensures Lawful(run, minLength, u)
    {
      var i := PartOf(parts, u);
      UseIsLawful(run, minLength, i, u);
    }
  }

  // --- the rules ---

  function ConsumersAt(uses: seq<Use>, key: Location): seq<Occurrence> {
    if uses == [] then []
    else
      ConsumersAt(uses[..|uses| - 1], key)
      + (if LocationOf(uses[|uses| - 1].src) == key then [uses[|uses| - 1].consumer] else [])
  }

  /** One rule for each source location, under a name of its own. */
  predicate DistinctRules(b: Book) {
    && (forall i, k | 0 <= i < k < |b.rules| :: KeyOf(b.rules[i]) != KeyOf(b.rules[k]))
    && (forall i, k | 0 <= i < k < |b.rules| :: b.rules[i].name != b.rules[k].name)
    && (forall i | 0 <= i < |b.rules| :: b.rules[i].name in b.taken && IsIdent(b.rules[i].name))
  }

  /** Each rule holds the consumers of all uses of its location, in order. */
  predicate FullRules(b: Book, uses: seq<Use>) {
    forall i | 0 <= i < |b.rules| :: b.rules[i].consumers == ConsumersAt(uses, KeyOf(b.rules[i]))
  }

  predicate HasUse(uses: seq<Use>, src: Occurrence) {
    exists u :: u in uses && u.src == src
  }

  /** Each rule's producer is the source of some use. */
  predicate RootedRules(b: Book, uses: seq<Use>) {
    forall i | 0 <= i < |b.rules| :: HasUse(uses, b.rules[i].producer)
  }

  /** Each use is in a rule. */
  predicate CoveredUses(b: Book, uses: seq<Use>) {
    forall u | u in uses :: RuleAt(b.rules, LocationOf(u.src)).Some?
  }

  lemma AddUseKeepsDistinct(b: Book, u: Use)
    requires DistinctRules(b) && IsIdent(u.suggested)
    ensures DistinctRules(AddUse(b, u))
  {
    DedupedIsIdent(u.suggested, b.taken);
  }

  lemma ConsumersGrow(uses: seq<Use>, u: Use, key: Location)
    ensures ConsumersAt(uses + [u], key)
         == ConsumersAt(uses, key) + (if LocationOf(u.src) == key then [u.consumer] else [])
  {
    assert (uses + [u])[..|uses|] == uses;
  }

  lemma {:induction false} NoConsumersElsewhere(uses: seq<Use>, key: Location)
    requires forall u | u in uses :: LocationOf(u.src) != key
    ensures ConsumersAt(uses, key) == []
  {
    if uses != [] {
      assert uses[|uses| - 1] in uses;
      assert forall u | u in uses[..|uses| - 1] :: u in uses;
      NoConsumersElsewhere(uses[..|uses| - 1], key);
    }
  }

  lemma AddUseKeepsFull(b: Book, uses: seq<Use>, u: Use)
    requires DistinctRules(b) && FullRules(b, uses) && CoveredUses(b, uses)
    ensures FullRules(AddUse(b, u), uses + [u])
  {
    var key, b' := LocationOf(u.src), AddUse(b, u);
    var at := RuleAt(b.rules, key);
    forall i | 0 <= i < |b'.rules|
      ensures b'.rules[i].consumers == ConsumersAt(uses + [u], KeyOf(b'.rules[i]))
    {
      ConsumersGrow(uses, u, KeyOf(b'.rules[i]));
      if at.None? && i == |b.rules| {
        NoConsumersElsewhere(uses, key);
      }
    }
  }

  lemma {:induction false} RuleAtFinds(rules: seq<Rule>, i: nat)
    requires i < |rules|
    ensures RuleAt(rules, KeyOf(rules[i])).Some?
  {
  }

  lemma AddUseKeepsCovered(b: Book, uses: seq<Use>, u: Use)
    requires CoveredUses(b, uses)
    ensures CoveredUses(AddUse(b, u), uses + [u])
  {
    var rules, rules' := b.rules, AddUse(b, u).rules;
    forall v | v in uses + [u]
      ensures RuleAt(rules', LocationOf(v.src)).Some?
    {
      var at := RuleAt(rules, LocationOf(v.src));
      var i := if at.Some? then at.value else |rules|;
      assert KeyOf(rules'[i]) == LocationOf(v.src);
      RuleAtFinds(rules', i);
    }
  }

  lemma AddUseKeepsRooted(b: Book, uses: seq<Use>, u: Use)
    requires RootedRules(b, uses)
    ensures RootedRules(AddUse(b, u), uses + [u])
  {
    var b' := AddUse(b, u);
    forall i | 0 <= i < |b'.rules|
      ensures HasUse(uses + [u], b'.rules[i].producer)
    {
      if i < |b.rules| {
        var v :| v in uses && v.src == b.rules[i].producer;
        assert v in uses + [u];
      } else {
        assert u in uses + [u];
      }
    }
  }

  predicate Kept(b: Book, uses: seq<Use>) {
    DistinctRules(b) && FullRules(b, uses) && RootedRules(b, uses) && CoveredUses(b, uses)
  }

  lemma AddUseKeepsAll(b: Book, uses: seq<Use>, u: Use)
    requires Kept(b, uses) && IsIdent(u.suggested)
    ensures Kept(AddUse(b, u), uses + [u])
  {
    AddUseKeepsDistinct(b, u);
    AddUseKeepsFull(b, uses, u);
    AddUseKeepsRooted(b, uses, u);
    AddUseKeepsCovered(b, uses, u);
  }

  /** The book of a run's uses: distinct valid names, one rule for each source location, each use in
      exactly the rule of its location. */
  lemma {:induction false} BookIsKept(uses: seq<Use>)
    requires forall i | 0 <= i < |uses| :: IsIdent(uses[i].suggested)
    ensures Kept(BookOf(uses), uses)
  {
    if uses != [] {
      var front, last := uses[..|uses| - 1], uses[|uses| - 1];
      BookIsKept(front);
      AddUseKeepsAll(BookOf(front), front, last);
      assert front + [last] == uses;
    }
  }

  // --- precedence ---

  /** Occurrences carry the identity and the index of their execution, identities are unique, and
      no two executions have the same index. */
  predicate WellFormedRun(run: seq<Execution>) {
    && (forall i | 0 <= i < |run| :: OwnOccurrences(run[i]))
    && (forall i, k | 0 <= i < |run| && 0 <= k < |run| && run[i].id == run[k].id :: i == k)
    && (forall i, k | 0 <= i < |run| && 0 <= k < |run| && run[i].index == run[k].index :: i == k)
  }

  predicate OwnOccurrences(e: Execution) {
    && (forall o | o in e.sinks :: o.execution == e.id && o.index == e.index)
    && (forall o | o in e.sources :: o.execution == e.id && o.index == e.index)
  }

  lemma UsePrecedes(run: seq<Execution>, minLength: nat, u: Use)
    requires WellFormedRun(run) && InOrder(run) && Lawful(run, minLength, u)
    ensures u.src.index < u.consumer.index
    ensures exists j :: 0 <= j < |run| && run[j].id == u.src.execution && run[j].index == u.src.index
  {
    var j :| 0 <= j < u.execution && run[j].usable && u.src in run[j].sources;
    assert OwnOccurrences(run[j]) && OwnOccurrences(run[u.execution]);
    assert run[u.execution].sinks[u.sink] in run[u.execution].sinks;
  }

  lemma {:induction false} ConsumersAreUses(uses: seq<Use>, key: Location, o: Occurrence)
    requires o in ConsumersAt(uses, key)
    ensures exists u :: u in uses && LocationOf(u.src) == key && u.consumer == o
  {
    var last := uses[|uses| - 1];
    if o in ConsumersAt(uses[..|uses| - 1], key) {
      ConsumersAreUses(uses[..|uses| - 1], key, o);
      var u :| u in uses[..|uses| - 1] && LocationOf(u.src) == key && u.consumer == o;
      assert u in uses;
    } else {
      assert last in uses && LocationOf(last.src) == key && last.consumer == o;
    }
  }

  /** Every producer comes from a strictly earlier exchange than each of its consumers. */
  lemma ProducersPrecedeConsumers(run: seq<Execution>, minLength: nat, i: nat, o: Occurrence)
    requires WellFormedRun(run) && InOrder(run)
    requires i < |Rules(run, minLength)| && o in Rules(run, minLength)[i].consumers
    ensures Rules(run, minLength)[i].producer.index < o.index
  {
    OrderIsKept(run);
    UsesAreLawful(run, minLength);
    RulePrecedes(run, minLength, Uses(run, minLength), i, o);
  }

  lemma LawfulNames(run: seq<Execution>, minLength: nat, uses: seq<Use>)
    requires forall u | u in uses :: Lawful(run, minLength, u)
    ensures forall i | 0 <= i < |uses| :: IsIdent(uses[i].suggested)
  {
    forall i | 0 <= i < |uses|
      ensures IsIdent(uses[i].suggested)
    {
      assert uses[i] in uses;
    }
  }

  /** A consumer of a rule belongs to a use of the rule's location, and the rule's producer is the
      source of some use. */
  lemma UsesBehind(run: seq<Execution>, minLength: nat, uses: seq<Use>, i: nat, o: Occurrence) returns (u: Use, v: Use)
    requires forall u | u in uses :: Lawful(run, minLength, u)
    requires i < |BookOf(uses).rules| && o in BookOf(uses).rules[i].consumers
    ensures u in uses && v in uses && u.consumer == o && v.src == BookOf(uses).rules[i].producer
    ensures LocationOf(u.src) == LocationOf(v.src)
  {
    LawfulNames(run, minLength, uses);
    BookIsKept(uses);
    var r := BookOf(uses).rules[i];
    ConsumersAreUses(uses, KeyOf(r), o);
    u :| u in uses && LocationOf(u.src) == KeyOf(r) && u.consumer == o;
    assert HasUse(uses, r.producer);
    v :| v in uses && v.src == r.producer;
  }

  lemma RulePrecedes(run: seq<Execution>, minLength: nat, uses: seq<Use>, i: nat, o: Occurrence)
    requires WellFormedRun(run) && InOrder(run) && forall u | u in uses :: Lawful(run, minLength, u)
    requires i < |BookOf(uses).rules| && o in BookOf(uses).rules[i].consumers
    ensures BookOf(uses).rules[i].producer.index < o.index
  {
    var u, v := UsesBehind(run, minLength, uses, i, o);
    UsePrecedes(run, minLength, u);
    UsePrecedes(run, minLength, v);
    SameExecutionSameIndex(run, u.src, v.src);
  }

  lemma SameExecutionSameIndex(run: seq<Execution>, a: Occurrence, b: Occurrence)
    requires WellFormedRun(run) && a.execution == b.execution
    requires exists j :: 0 <= j < |run| && run[j].id == a.execution && run[j].index == a.index
    requires exists j :: 0 <= j < |run| && run[j].id == b.execution && run[j].index == b.index
    ensures a.index == b.index
  {
    var j :| 0 <= j < |run| && run[j].id == a.execution && run[j].index == a.index;
    var k :| 0 <= k < |run| && run[k].id == b.execution && run[k].index == b.index;
  }

  /** The rules of a run: one for each source location under a distinct valid name, each use in
      exactly the rule of its source, no sink used twice, concrete values from the earliest
      source. */
  lemma RulesAreExact(run: seq<Execution>, minLength: nat)
    requires InOrder(run)
    ensures
      var uses := Uses(run, minLength);
      && BookOf(uses).rules == Rules(run, minLength) && Kept(BookOf(uses), uses)
      && UsedOnce(uses) && (forall u | u in uses :: Lawful(run, minLength, u))
  {
    OrderIsKept(run);
    UsesAreLawful(run, minLength);
    LawfulNames(run, minLength, Uses(run, minLength));
    BookIsKept(Uses(run, minLength));
  }

  // --- does a rule's producer carry the consumer's value? ---

  /** No response lists two values at one place, as it does for a header that is sent twice. */
  predicate PlacesTell(run: seq<Execution>) {
    forall j | 0 <= j < |run| :: SourcesTell(run[j])
  }

  predicate SourcesTell(e: Execution) {
    forall a, b | a in e.sources && b in e.sources && LocationOf(a) == LocationOf(b) :: a == b
  }

  lemma SameSource(run: seq<Execution>, minLength: nat, u: Use, v: Use)
    requires WellFormedRun(run) && PlacesTell(run) && Lawful(run, minLength, u) && Lawful(run, minLength, v)
    requires LocationOf(u.src) == LocationOf(v.src)
    ensures u.src == v.src
  {
    var j :| 0 <= j < u.execution && run[j].usable && u.src in run[j].sources;
    var k :| 0 <= k < v.execution && run[k].usable && v.src in run[k].sources;
    assert OwnOccurrences(run[j]) && OwnOccurrences(run[k]);
    assert run[j].id == run[k].id;
    assert SourcesTell(run[j]);
  }

  lemma ConcreteUseMatches(run: seq<Execution>, minLength: nat, u: Use)
    requires Lawful(run, minLength, u)
    ensures
      var sink := run[u.execution].sinks[u.sink];
      if u.inferred then IsPlaceholder(sink.raw) else Match(u.src.raw, sink).Some?
  {
  }

  /** Then the request value that a rule replaces carries the value that the rule extracts, unless it
      is a placeholder. */
  lemma ConsumersCarryTheValue(run: seq<Execution>, minLength: nat, i: nat, o: Occurrence) returns (u: Use)
    requires WellFormedRun(run) && InOrder(run) && PlacesTell(run)
    requires i < |Rules(run, minLength)| && o in Rules(run, minLength)[i].consumers
    ensures u in Uses(run, minLength) && u.consumer == o && Lawful(run, minLength, u)
    ensures
      var producer, sink := Rules(run, minLength)[i].producer, run[u.execution].sinks[u.sink];
      u.src == producer && (if u.inferred then IsPlaceholder(sink.raw) else Match(producer.raw, sink).Some?)
  {
    OrderIsKept(run);
    UsesAreLawful(run, minLength);
    var v;
    u, v := UsesBehind(run, minLength, Uses(run, minLength), i, o);
    SameSource(run, minLength, u, v);
    ConcreteUseMatches(run, minLength, u);
  }
}

/** Whether the consumers of an automatic rule carry the value that the rule extracts, when a response
    lists several values at one place (backend/app/services/auto_correlator.py:45-59, 61-118). */
module SharedPlaces {
  import opened Wrappers
  import opened Text
  import opened Naming
  import opened Occurrences
  import opened AutoCorrelation
  import opened CausalCorrelation
  import opened TakenValues

  // --- the first use of a place ---

  /** The source of the first use whose source is at a place. */
  function FirstAt(uses: seq<Use>, key: Location): Option<Occurrence>
    decreases |uses|
  {
    if uses == [] then None
    else
      var before, last := FirstAt(uses[..|uses| - 1], key), uses[|uses| - 1];
      if before.Some? then before else if LocationOf(last.src) == key then Some(last.src) else None
  }

  predicate HoldsFirst(b: Book, uses: seq<Use>) {
    && (forall i | 0 <= i < |b.rules| :: FirstAt(uses, KeyOf(b.rules[i])) == Some(b.rules[i].producer))
    && (forall u | u in uses :: RuleAt(b.rules, LocationOf(u.src)).Some?)
  }

  lemma {:induction false} NoFirst(uses: seq<Use>, key: Location)
    requires forall u | u in uses :: LocationOf(u.src) != key
    ensures FirstAt(uses, key).None?
    decreases |uses|
  {
    if uses != [] {
      NoFirst(uses[..|uses| - 1], key);
    }
  }

  lemma AddUseHoldsFirst(b: Book, uses: seq<Use>, u: Use)
    requires HoldsFirst(b, uses)
    ensures HoldsFirst(AddUse(b, u), uses + [u])
  {
    assert (uses + [u])[..|uses|] == uses;
    var at, b' := RuleAt(b.rules, LocationOf(u.src)), AddUse(b, u);
    if at.None? {
      NoFirst(uses, LocationOf(u.src));
    }
    forall v | v in uses + [u]
      ensures RuleAt(b'.rules, LocationOf(v.src)).Some?
    {
      if v in uses {
        var i := RuleAt(b.rules, LocationOf(v.src)).value;
        assert KeyOf(b'.rules[i]) == LocationOf(v.src);
      } else if at.Some? {
        assert KeyOf(b'.rules[at.value]) == LocationOf(v.src);
      } else {
        assert KeyOf(b'.rules[|b.rules|]) == LocationOf(v.src);
      }
    }
  }

  /** A rule extracts the value of the first use of its place. */
  lemma {:induction false} ProducersAreFirst(uses: seq<Use>)
    ensures HoldsFirst(BookOf(uses), uses)
    decreases |uses|
  {
    if uses != [] {
      var front, last := uses[..|uses| - 1], uses[|uses| - 1];
      ProducersAreFirst(front);
      AddUseHoldsFirst(BookOf(front), front, last);
      assert uses == front + [last];
    }
  }

  /** The first of ordered uses of a place comes before all its others. */
  lemma {:induction false} FirstUseOf(uses: seq<Use>, u: Use) returns (x: nat)
    requires u in uses
    ensures x < |uses| && LocationOf(uses[x].src) == LocationOf(u.src)
    ensures FirstAt(uses, LocationOf(u.src)) == Some(uses[x].src)
    ensures forall y | 0 <= y < x :: LocationOf(uses[y].src) != LocationOf(u.src)
    decreases |uses|
  {
    var front, last := uses[..|uses| - 1], uses[|uses| - 1];
    if v :| v in front && LocationOf(v.src) == LocationOf(u.src) {
      x := FirstUseOf(front, v);
    } else {
      NoFirst(front, LocationOf(u.src));
      x := |uses| - 1;
      assert forall y | 0 <= y < x :: uses[y] in front;
    }
  }

  // --- when the values are carried ---

  /** The first request value of the run that takes something from its place. */
  ghost predicate FirstTaken(run: seq<Execution>, minLength: nat, v: Use) {
    && IsTaken(run, minLength, v)
    && forall u | IsTaken(run, minLength, u) && LocationOf(u.src) == LocationOf(v.src) :: u == v || Precedes(v, u)
  }

  lemma FirstIsTaken(run: seq<Execution>, minLength: nat, u: Use) returns (v: Use)
    requires IsTaken(run, minLength, u)
    ensures FirstTaken(run, minLength, v) && LocationOf(v.src) == LocationOf(u.src)
    ensures FirstAt(Uses(run, minLength), LocationOf(u.src)) == Some(v.src)
  {
    UsesAreTaken(run, minLength);
    var uses := Uses(run, minLength);
    var x := FirstUseOf(uses, u);
    v := uses[x];
    assert v in uses;
    forall t | IsTaken(run, minLength, t) && LocationOf(t.src) == LocationOf(v.src)
      ensures t == v || Precedes(v, t)
    {
      assert t in uses;
      var y :| 0 <= y < |uses| && uses[y] == t;
    }
  }

  lemma OneIsFirst(run: seq<Execution>, minLength: nat, v: Use, w: Use)
    requires FirstTaken(run, minLength, v) && FirstTaken(run, minLength, w)
    requires LocationOf(v.src) == LocationOf(w.src)
    ensures v == w
  {
  }

  /** The rule that a use belongs to. */
  function RuleOf(run: seq<Execution>, minLength: nat, u: Use): Option<Rule> {
    var at := RuleAt(Rules(run, minLength), LocationOf(u.src));
    if at.Some? then Some(Rules(run, minLength)[at.value]) else None
  }

  predicate Carries(run: seq<Execution>, u: Use, value: string) {
    u.execution < |run| && u.sink < |run[u.execution].sinks| && Match(value, run[u.execution].sinks[u.sink]).Some?
  }

  /** Every request value that takes a concrete source carries the value that its rule extracts. */
  ghost predicate AllCarry(run: seq<Execution>, minLength: nat) {
    forall u | IsTaken(run, minLength, u) && !u.inferred ::
      RuleOf(run, minLength, u).Some? && Carries(run, u, RuleOf(run, minLength, u).value.producer.raw)
  }

  /** Every such request value carries the value that was taken first from its source's place. */
  ghost predicate ValuesAgree(run: seq<Execution>, minLength: nat) {
    forall u, v | IsTaken(run, minLength, u) && !u.inferred && FirstTaken(run, minLength, v) ::
      LocationOf(u.src) == LocationOf(v.src) ==> Carries(run, u, v.src.raw)
  }

  /** The request values behind the consumers of a rule. */
  ghost predicate TakenFor(run: seq<Execution>, minLength: nat, r: Rule, o: Occurrence) {
    exists u :: IsTaken(run, minLength, u) && LocationOf(u.src) == KeyOf(r) && u.consumer == o
  }

  /** All request values that take a concrete source carry what their rules extract exactly when those of
      one place carry the value taken first from it. The consumers of a rule are the request values that
      take something from its place, no more and no less. */
  lemma ConsumersCarryExactly(run: seq<Execution>, minLength: nat)
    requires InOrder(run)
    ensures AllCarry(run, minLength) <==> ValuesAgree(run, minLength)
    ensures forall u | IsTaken(run, minLength, u) ::
      RuleOf(run, minLength, u).Some? && u.consumer in RuleOf(run, minLength, u).value.consumers
    ensures forall r, o | r in Rules(run, minLength) && o in r.consumers :: TakenFor(run, minLength, r, o)
  {
    forall u | IsTaken(run, minLength, u)
      ensures RuleOf(run, minLength, u).Some? && u.consumer in RuleOf(run, minLength, u).value.consumers
    {
      var v := TakenIsInRule(run, minLength, u);
    }
    forall r, o | r in Rules(run, minLength) && o in r.consumers
      ensures TakenFor(run, minLength, r, o)
    {
      ConsumerIsTaken(run, minLength, r, o);
    }
    if ValuesAgree(run, minLength) {
      AgreeingIsCarrying(run, minLength);
    } else if AllCarry(run, minLength) {
      CarryingIsAgreeing(run, minLength);
    }
  }

  /** A request value that takes something is in the rule of its place, which extracts the value that was
      taken first. */
  lemma TakenIsInRule(run: seq<Execution>, minLength: nat, u: Use) returns (v: Use)
    requires InOrder(run) && IsTaken(run, minLength, u)
    ensures FirstTaken(run, minLength, v) && LocationOf(v.src) == LocationOf(u.src)
    ensures
      var r := RuleOf(run, minLength, u);
      r.Some? && r.value.producer == v.src && u.consumer in r.value.consumers
  {
    RulesAreExact(run, minLength);
    var uses := Uses(run, minLength);
    ProducersAreFirst(uses);
    UsesAreTaken(run, minLength);
    assert u in uses;
    assert RuleAt(BookOf(uses).rules, LocationOf(u.src)).Some?;
    UseIsConsumed(uses, u);
    v := FirstIsTaken(run, minLength, u);
  }

  lemma ConsumerIsTaken(run: seq<Execution>, minLength: nat, r: Rule, o: Occurrence)
    requires InOrder(run) && r in Rules(run, minLength) && o in r.consumers
    ensures TakenFor(run, minLength, r, o)
  {
    RulesAreExact(run, minLength);
    var uses := Uses(run, minLength);
    UsesAreTaken(run, minLength);
    ConsumersAreUses(uses, KeyOf(r), o);
    var u :| u in uses && LocationOf(u.src) == KeyOf(r) && u.consumer == o;
    assert IsTaken(run, minLength, u);
  }

  lemma AgreeingIsCarrying(run: seq<Execution>, minLength: nat)
    requires InOrder(run) && ValuesAgree(run, minLength)
    ensures AllCarry(run, minLength)
  {
    forall u | IsTaken(run, minLength, u) && !u.inferred
      ensures RuleOf(run, minLength, u).Some? && Carries(run, u, RuleOf(run, minLength, u).value.producer.raw)
    {
      var v := TakenIsInRule(run, minLength, u);
    }
  }

  lemma CarryingIsAgreeing(run: seq<Execution>, minLength: nat)
    requires InOrder(run) && AllCarry(run, minLength)
    ensures ValuesAgree(run, minLength)
  {
    forall u, v | IsTaken(run, minLength, u) && !u.inferred && FirstTaken(run, minLength, v)
      && LocationOf(u.src) == LocationOf(v.src)
      ensures Carries(run, u, v.src.raw)
    {
      var w := TakenIsInRule(run, minLength, u);
      OneIsFirst(run, minLength, v, w);
    }
  }

  lemma {:induction false} UseIsConsumed(uses: seq<Use>, u: Use)
    requires u in uses
    ensures u.consumer in ConsumersAt(uses, LocationOf(u.src))
    decreases |uses|
  {
    if u in uses[..|uses| - 1] {
      UseIsConsumed(uses[..|uses| - 1], u);
    }
  }

  /** Where a sink is neither a header nor a text body, carrying a value is being equal to it: so the
      uses of such sinks agree exactly when they take equal values. */
  lemma CarryingIsEquality(run: seq<Execution>, minLength: nat, u: Use, value: string)
    requires Lawful(run, minLength, u) && !u.inferred
    requires var place := run[u.execution].sinks[u.sink].place; !place.Header? && !place.TextBody?
    ensures Carries(run, u, value) <==> value == u.src.raw
  {
    ConcreteUseMatches(run, minLength, u);
  }

  // --- a run in which they are not ---

  function HeaderValue(raw: string): Occurrence {
    Occurrence("login", 0, Header, "x", Some("x"), raw, raw, StringKind, None)
  }

  function QueryValue(name: string, raw: string): Occurrence {
    Occurrence("search", 1, Query, name, Some(name), raw, raw, StringKind, None)
  }

  const LOGIN := Execution("login", 0, [], [], [HeaderValue("7k"), HeaderValue("8k")], true, true)

  const SEARCH := Execution("search", 1, [], [QueryValue("a", "7k"), QueryValue("b", "8k")], [], true, true)

  lemma ShortTexts()
    ensures LowerAll("x") == "x" && LowerAll("7k") == "7k" && LowerAll("8k") == "8k"
    ensures !IsPlaceholder("7k") && !IsPlaceholder("8k")
  {
    assert LowerAll("x")[0] == 'x';
    assert LowerAll("7k")[0] == '7' && LowerAll("7k")[1] == 'k';
    assert LowerAll("8k")[0] == '8' && LowerAll("8k")[1] == 'k';
    assert "8k"[1] != "id"[1];
    NothingToStrip("7k");
    NothingToStrip("8k");
  }

  lemma NothingToStrip(s: string)
    requires s != "" && !IsSpace(s[0]) && !IsSpace(s[|s| - 1])
    ensures Strip(s, IsSpace) == s
  {
  }

  /** The response lists two values of one header, and both may be used. */
  lemma LoginProduces()
    ensures Produced(LOGIN) == [HeaderValue("7k"), HeaderValue("8k")]
  {
    ShortTexts();
    var a, b := HeaderValue("7k"), HeaderValue("8k");
    assert LOGIN.sources == [a, b] && [a, b][..1] == [a] && [a][..0] == [];
    assert "7k"[0] != "8k"[0];
    assert RawCount([a], "7k") == 1 && RawCount([a], "8k") == 0;
    assert IsSource(LOGIN, a) && IsSource(LOGIN, b);
    assert Filter(LOGIN, [a]) == [a];
  }

  /** Of two sources exactly one supplies the sink. */
  lemma OneOfTwoSupplies(a: Occurrence, b: Occurrence, sink: Occurrence, segments: seq<string>, minLength: nat,
                         first: bool)
    requires IsTarget(sink)
    requires Supplies(a, sink, segments, minLength) == first && Supplies(b, sink, segments, minLength) == !first
    ensures ChoiceFor([a, b], sink, segments, minLength) == Exact(if first then a else b)
  {
    assert [a, b][..1] == [a] && [a][..0] == [];
    assert Suppliers([a], sink, segments, minLength) == if first then [a] else [];
  }

  lemma ValueSupplies(raw: string, sink: Occurrence)
    requires raw == "7k" || raw == "8k"
    requires sink == QueryValue("a", "7k") || sink == QueryValue("b", "8k")
    ensures Supplies(HeaderValue(raw), sink, [], 1) <==> sink.raw == raw
  {
    ShortTexts();
    assert LowerAll(raw) == raw && |raw| == 2;
    assert "ok"[0] != raw[0];
  }

  lemma OneSupplies(sink: Occurrence, first: bool)
    requires sink == (if first then QueryValue("a", "7k") else QueryValue("b", "8k"))
    ensures
      var a, b := HeaderValue("7k"), HeaderValue("8k");
      ChoiceFor([a, b], sink, [], 1) == Exact(if first then a else b)
  {
    assert "7k"[0] != "8k"[0];
    ValueSupplies("7k", sink);
    ValueSupplies("8k", sink);
    OneOfTwoSupplies(HeaderValue("7k"), HeaderValue("8k"), sink, [], 1, first);
  }

  lemma SearchTakes()
    ensures
      var sources := [HeaderValue("7k"), HeaderValue("8k")];
      Choices(SEARCH, sources, 1) == [Exact(sources[0]), Exact(sources[1])]
  {
    OneSupplies(SEARCH.sinks[0], true);
    OneSupplies(SEARCH.sinks[1], false);
  }

  /** Two concrete choices are two uses. */
  lemma TwoExactUses(i: nat, e: Execution, choices: seq<Choice>, guesses: seq<Option<Occurrence>>)
    requires |e.sinks| == |choices| == |guesses| == 2 && choices[0].Exact? && choices[1].Exact?
    ensures UsesIn(i, e, choices, guesses)
         == [ConcreteUse(i, 0, e.sinks[0], choices[0].src), ConcreteUse(i, 1, e.sinks[1], choices[1].src)]
  {
    assert ExactUses(i, e.sinks, choices, 1) == [ConcreteUse(i, 0, e.sinks[0], choices[0].src)];
    assert PendingOf(choices, 1) == [] && PendingOf(choices, 2) == [];
  }

  /** A first request without sinks uses nothing. */
  lemma UsesOfTwo(first: Execution, second: Execution, minLength: nat)
    requires first.sinks == []
    ensures Uses([first, second], minLength)
         == UsesFrom(1, second, Produced(first), SelectedBefore([first, second], minLength, 2), minLength)
  {
    var run := [first, second];
    var parts := Parts(run, minLength);
    assert parts == [parts[0], parts[1]] && parts[..1] == [parts[0]] && [parts[0]][..0] == [];
    assert parts[0] == UsesOf(run, minLength, 0) == [];
    assert Together([parts[0]]) == [];
    assert SourcesBefore(run, 0) == [] && [] + Produced(first) == Produced(first);
    assert SourcesBefore(run, 1) == Produced(first);
    assert [] + parts[1] == parts[1];
  }

  /** Two uses of one place share the rule of the first. */
  lemma TwoUsesOneRule(u: Use, v: Use)
    requires LocationOf(u.src) == LocationOf(v.src)
    ensures BookOf([u, v]).rules
         == [Rule(Deduped(u.suggested, {}), u.src, [u.consumer, v.consumer], u.inferred || v.inferred)]
  {
    assert [u, v][..1] == [u] && [u][..0] == [];
    assert BookOf([u]) == AddUse(BookOf([]), u);
    assert BookOf([u]).rules == [Rule(Deduped(u.suggested, {}), u.src, [u.consumer], u.inferred)];
    var rules := BookOf([u]).rules;
    assert RuleAt(rules, LocationOf(v.src)) == Some(0);
    assert [u.consumer] + [v.consumer] == [u.consumer, v.consumer];
    assert BookOf([u, v]) == AddUse(BookOf([u]), v);
    assert |AddUse(BookOf([u]), v).rules| == 1;
  }

  function TakenUse(k: nat): Use
    requires k < 2
  {
    ConcreteUse(1, k, SEARCH.sinks[k], LOGIN.sources[k])
  }

  lemma UsesOfTheRun()
    ensures Uses([LOGIN, SEARCH], 1) == [TakenUse(0), TakenUse(1)]
  {
    var sources := [HeaderValue("7k"), HeaderValue("8k")];
    LoginProduces();
    SearchTakes();
    UsesOfTwo(LOGIN, SEARCH, 1);
    TwoExactUses(1, SEARCH, [Exact(sources[0]), Exact(sources[1])],
                 Guesses(SEARCH, sources, SelectedBefore([LOGIN, SEARCH], 1, 2)));
  }

  lemma TakenUseIs(k: nat)
    requires k < 2
    ensures TakenUse(k).consumer == SEARCH.sinks[k] && TakenUse(k).src == LOGIN.sources[k] && !TakenUse(k).inferred
  {
  }

  lemma RunIsWellFormed()
    ensures WellFormedRun([LOGIN, SEARCH]) && InOrder([LOGIN, SEARCH])
  {
  }

  lemma RulesOfTheRun()
    ensures
      var rules := Rules([LOGIN, SEARCH], 1);
      |rules| == 1 && rules[0].producer == LOGIN.sources[0] && rules[0].consumers == SEARCH.sinks
  {
    RunIsWellFormed();
    OrderIsKept([LOGIN, SEARCH]);
    UsesOfTheRun();
    TakenUseIs(0);
    TakenUseIs(1);
    TwoUsesOneRule(TakenUse(0), TakenUse(1));
    assert [SEARCH.sinks[0], SEARCH.sinks[1]] == SEARCH.sinks;
  }

  lemma OneRuleMisses(run: seq<Execution>, minLength: nat, u: Use)
    requires IsTaken(run, minLength, u) && !u.inferred && |Rules(run, minLength)| == 1
    requires KeyOf(Rules(run, minLength)[0]) == LocationOf(u.src)
    requires !Carries(run, u, Rules(run, minLength)[0].producer.raw)
    ensures !AllCarry(run, minLength)
  {
    assert RuleAt(Rules(run, minLength), LocationOf(u.src)) == Some(0);
  }

  lemma SecondIsMissed()
    ensures Match(LOGIN.sources[0].raw, SEARCH.sinks[1]).None?
    ensures !Carries([LOGIN, SEARCH], TakenUse(1), LOGIN.sources[0].raw)
  {
    assert "7k"[0] != "8k"[0];
  }

  /** A header that is sent twice: its two values are used by the next request, and both uses end up in
      the one rule of the header, which extracts the first value; the second one does not carry it. */
  lemma SharedPlaceSharesTheRule()
    ensures
      var run := [LOGIN, SEARCH];
      var rules := Rules(run, 1);
      && WellFormedRun(run) && InOrder(run)
      && |rules| == 1 && rules[0].producer == LOGIN.sources[0] && rules[0].consumers == SEARCH.sinks
      && Match(LOGIN.sources[0].raw, SEARCH.sinks[1]).None?
      && !AllCarry(run, 1)
  {
    RunIsWellFormed();
    RulesOfTheRun();
    UsesOfTheRun();
    TakenUseIs(1);
    SecondIsMissed();
    UsesAreTaken([LOGIN, SEARCH], 1);
    assert TakenUse(1) in Uses([LOGIN, SEARCH], 1);
    OneRuleMisses([LOGIN, SEARCH], 1, TakenUse(1));
  }
}

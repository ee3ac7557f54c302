/** Dropping candidates that only echo an earlier producer, and flagging conflicts
    (backend/app/services/correlation_engine.py:388-446). */
module EchoElimination {
  import opened Wrappers
  import opened Occurrences
  import opened TwoRunCorrelation

  function Places(consumers: seq<Occurrence>): set<Location> {
    set o | o in consumers :: LocationOf(o)
  }

  // --- merging ---

  type Key = (string, string, string)

  function KeyOf(c: Candidate): Key {
    (c.producer.execution, c.producer.path, c.name)
  }

  predicate DistinctNames(cs: seq<Candidate>) {
    forall i, k | 0 <= i < |cs| && 0 <= k < |cs| && cs[i].name == cs[k].name :: i == k
  }

  /** The consumers of a second candidate with the same key that the first one does not have. */
  function NewConsumers(have: seq<Occurrence>, more: seq<Occurrence>): seq<Occurrence> {
    if more == [] then []
    else
      NewConsumers(have, more[..|more| - 1])
      + (if LocationOf(more[|more| - 1]) in Places(have) then [] else [more[|more| - 1]])
  }

  function IndexOf(cs: seq<Candidate>, key: Key): (r: Option<nat>)
    ensures r.Some? ==> r.value < |cs| && KeyOf(cs[r.value]) == key
    ensures r.None? ==> forall i | 0 <= i < |cs| :: KeyOf(cs[i]) != key
  {
    if cs == [] then None
    else if KeyOf(cs[|cs| - 1]) == key then Some(|cs| - 1)
    else IndexOf(cs[..|cs| - 1], key)
  }

  /** The dictionary of merged candidates, in insertion order. */
  function Merged(cs: seq<Candidate>): seq<Candidate> {
    if cs == [] then []
    else
      var c, before := cs[|cs| - 1], Merged(cs[..|cs| - 1]);
      var at := IndexOf(before, KeyOf(c));
      if at.None? then before + [c]
      else
        var existing := before[at.value];
        before[at.value := existing.(consumers := existing.consumers + NewConsumers(existing.consumers, c.consumers))]
  }

  lemma KeyIsNew(cs: seq<Candidate>, c: Candidate)
    requires forall i | 0 <= i < |cs| :: cs[i].name != c.name
    ensures IndexOf(cs, KeyOf(c)).None?
  {
  }

  /** The engine gives every candidate a name of its own, so nothing is merged. */
  lemma {:induction false} NothingMerges(cs: seq<Candidate>)
    requires DistinctNames(cs)
    ensures Merged(cs) == cs
  {
    if cs != [] {
      NothingMerges(cs[..|cs| - 1]);
      KeyIsNew(cs[..|cs| - 1], cs[|cs| - 1]);
      assert cs == cs[..|cs| - 1] + [cs[|cs| - 1]];
    }
  }

  // --- echoes ---

  /** `later` is an echo of `earlier`: the same value, supplied to the request whose response has it
      again, and covering all that the echo supplies. */
  predicate Justifies(earlier: Candidate, later: Candidate) {
    && earlier.producer.index < later.producer.index
    && earlier.producer.raw == later.producer.raw
    && (exists o :: o in earlier.consumers && o.execution == later.producer.execution)
    && Places(later.consumers) <= Places(earlier.consumers)
  }

  predicate Redundant(cs: seq<Candidate>, c: Candidate) {
    exists i :: 0 <= i < |cs| && Justifies(cs[i], c)
  }

  function Surviving(cs: seq<Candidate>, n: nat): seq<Candidate>
    requires n <= |cs|
  {
    if n == 0 then []
    else Surviving(cs, n - 1) + (if Redundant(cs, cs[n - 1]) then [] else [cs[n - 1]])
  }

  function Eliminated(cs: seq<Candidate>): seq<Candidate> {
    Surviving(cs, |cs|)
  }

  lemma {:induction false} SurvivingIs(cs: seq<Candidate>, n: nat, c: Candidate)
    requires n <= |cs|
    ensures c in Surviving(cs, n) <==> c in cs[..n] && !Redundant(cs, c)
  {
    if n > 0 {
      SurvivingIs(cs, n - 1, c);
      assert cs[..n] == cs[..n - 1] + [cs[n - 1]];
    }
  }

  /** The nested loops that collect the redundant ones, and the filter. */
  method DropEchoes(cs: seq<Candidate>) returns (result: seq<Candidate>)
    ensures result == Eliminated(cs)
  {
    result := [];
    for i := 0 to |cs|
      invariant result == Surviving(cs, i)
    {
      var redundant := false;
      var k := 0;
      while k < |cs| && !redundant
        invariant 0 <= k <= |cs|
        invariant redundant ==> Redundant(cs, cs[i])
        invariant !redundant ==> forall j | 0 <= j < k :: !Justifies(cs[j], cs[i])
      {
        redundant := Justifies(cs[k], cs[i]);
        k := k + 1;
      }
      if !redundant {
        result := result + [cs[i]];
      }
    }
  }

  /** Positions count executions, so there is no endless chain of earlier producers. */
  predicate CountsFromZero(cs: seq<Candidate>) {
    forall i | 0 <= i < |cs| :: cs[i].producer.index >= 0
  }

  lemma JustifiesIsTransitive(a: Candidate, b: Candidate, c: Candidate)
    requires Justifies(a, b) && Justifies(b, c)
    ensures Justifies(a, c)
  {
    var o :| o in b.consumers && o.execution == c.producer.execution;
    assert LocationOf(o) in Places(a.consumers);
    var o' :| o' in a.consumers && LocationOf(o') == LocationOf(o);
  }

  /** A dropped candidate has a surviving, strictly earlier producer of the same value that supplies
      everything it supplied. The producer that the search finds first may itself be dropped; then
      one further back justifies dropping both. */
  lemma {:induction false} EchoHasSurvivingProducer(cs: seq<Candidate>, c: Candidate) returns (s: Candidate)
    requires CountsFromZero(cs) && c.producer.index >= 0 && Redundant(cs, c)
    ensures s in Eliminated(cs) && Justifies(s, c)
    ensures s.producer.index < c.producer.index && s.producer.raw == c.producer.raw
    ensures Places(c.consumers) <= Places(s.consumers)
    decreases c.producer.index
  {
    var i :| 0 <= i < |cs| && Justifies(cs[i], c);
    if Redundant(cs, cs[i]) {
      s := EchoHasSurvivingProducer(cs, cs[i]);
      JustifiesIsTransitive(s, cs[i], c);
    } else {
      s := cs[i];
      SurvivingIs(cs, |cs|, s);
      assert cs[..|cs|] == cs;
    }
  }

  /** Nothing that was supplied stops being supplied with the same value. */
  lemma NothingIsLost(cs: seq<Candidate>, c: Candidate, o: Occurrence) returns (s: Candidate)
    requires CountsFromZero(cs) && c in cs && o in c.consumers
    ensures s in Eliminated(cs) && s.producer.raw == c.producer.raw && LocationOf(o) in Places(s.consumers)
  {
    if Redundant(cs, c) {
      s := EchoHasSurvivingProducer(cs, c);
      assert LocationOf(o) in Places(c.consumers);
    } else {
      s := c;
      SurvivingIs(cs, |cs|, c);
      assert cs[..|cs|] == cs;
    }
  }

  lemma NoneRedundantAmongSurvivors(cs: seq<Candidate>, c: Candidate)
    requires c in Eliminated(cs)
    ensures !Redundant(Eliminated(cs), c)
  {
    SurvivingIs(cs, |cs|, c);
    forall i | 0 <= i < |Eliminated(cs)|
      ensures !Justifies(Eliminated(cs)[i], c)
    {
      var s := Eliminated(cs)[i];
      SurvivingIs(cs, |cs|, s);
      assert cs[..|cs|] == cs;
      var k :| 0 <= k < |cs| && cs[k] == s;
      assert !Justifies(cs[k], c);
    }
  }

  lemma {:induction false} AllSurvive(cs: seq<Candidate>, n: nat)
    requires n <= |cs| && forall c | c in cs :: !Redundant(cs, c)
    ensures Surviving(cs, n) == cs[..n]
  {
    if n > 0 {
      AllSurvive(cs, n - 1);
      assert cs[..n] == cs[..n - 1] + [cs[n - 1]];
    }
  }

  /** Eliminating twice is eliminating once. */
  lemma EliminationIsIdempotent(cs: seq<Candidate>)
    ensures Eliminated(Eliminated(cs)) == Eliminated(cs)
  {
    forall c | c in Eliminated(cs)
      ensures !Redundant(Eliminated(cs), c)
    {
      NoneRedundantAmongSurvivors(cs, c);
    }
    AllSurvive(Eliminated(cs), |Eliminated(cs)|);
    assert Eliminated(cs)[..|Eliminated(cs)|] == Eliminated(cs);
  }

  // --- conflicts ---

  /** Two producers feed one consumer location. */
  predicate Shares(c: Candidate, d: Candidate) {
    && (c.producer.execution, c.producer.path) != (d.producer.execution, d.producer.path)
    && exists o :: o in c.consumers && LocationOf(o) in Places(d.consumers)
  }

  predicate Conflicting(cs: seq<Candidate>, c: Candidate) {
    exists i :: 0 <= i < |cs| && Shares(c, cs[i])
  }

  /** Candidates by consumer location. */
  function Feeding(cs: seq<Candidate>, at: Location): set<Candidate> {
    set c | c in cs && at in Places(c.consumers)
  }

  function ProducersFeeding(cs: seq<Candidate>, at: Location): set<(string, string)> {
    set c | c in Feeding(cs, at) :: (c.producer.execution, c.producer.path)
  }

  /** Grouping by consumer and counting distinct producers flags exactly the candidates that share
      a consumer with another producer. */
  lemma ConflictsAreShared(cs: seq<Candidate>, c: Candidate)
    requires c in cs
    ensures Conflicting(cs, c) <==>
              exists at :: at in Places(c.consumers) && |ProducersFeeding(cs, at)| > 1
  {
    if Conflicting(cs, c) {
      var i :| 0 <= i < |cs| && Shares(c, cs[i]);
      var o :| o in c.consumers && LocationOf(o) in Places(cs[i].consumers);
      var at := LocationOf(o);
      assert c in Feeding(cs, at) && cs[i] in Feeding(cs, at);
      TwoMembers(ProducersFeeding(cs, at), (c.producer.execution, c.producer.path),
                 (cs[i].producer.execution, cs[i].producer.path));
    }
    if at :| at in Places(c.consumers) && |ProducersFeeding(cs, at)| > 1 {
      var mine := (c.producer.execution, c.producer.path);
      assert c in Feeding(cs, at);
      var other := AnotherMember(ProducersFeeding(cs, at), mine);
      var d :| d in Feeding(cs, at) && (d.producer.execution, d.producer.path) == other;
      var i :| 0 <= i < |cs| && cs[i] == d;
      var o :| o in c.consumers && LocationOf(o) == at;
      assert Shares(c, cs[i]);
    }
  }

  lemma TwoMembers<T>(s: set<T>, x: T, y: T)
    requires x in s && y in s && x != y
    ensures |s| > 1
  {
    assert s == {x} + (s - {x});
    assert y in s - {x};
  }

  lemma AnotherMember<T>(s: set<T>, x: T) returns (y: T)
    requires x in s && |s| > 1
    ensures y in s && y != x
  {
    assert |s - {x}| == |s| - 1;
    y :| y in s - {x};
  }
}

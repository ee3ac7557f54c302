/** What the whole two-run analysis returns: candidates found, merged and freed from echoes
    (backend/app/services/correlation_engine.py:147-256, 387-434). */
module TwoRunResults {
  import opened Text
  import opened Occurrences
  import opened TwoRunCorrelation
  import opened EchoElimination

  function Reported(r: Runs): seq<Candidate> {
    Eliminated(Merged(Candidates(r)))
  }

  method Analyze(r: Runs) returns (reported: seq<Candidate>)
    ensures reported == Reported(r)
  {
    var candidates := AnalyzeTwoRun(r);
    reported := DropEchoes(Merged(candidates));
  }

  /** Positions of response values are those of their executions, counted from zero. */
  predicate PositionsCount(r: Runs) {
    forall e | e in r.baseline :: forall o | o in e.sources :: o.index >= 0
  }

  /** Nothing is merged, because every candidate has a name of its own. */
  lemma ReportedAreSurvivors(r: Runs)
    ensures DistinctNames(Candidates(r)) && Reported(r) == Eliminated(Candidates(r))
  {
    NamesAreDistinct(r);
    var cs := Candidates(r);
    NothingMerges(cs);
  }

  lemma {:induction false} SurvivorsKeepNames(cs: seq<Candidate>, n: nat)
    requires n <= |cs| && DistinctNames(cs)
    ensures forall i, k | 0 <= i < k < |Surviving(cs, n)| :: Surviving(cs, n)[i].name != Surviving(cs, n)[k].name
  {
    if n > 0 {
      SurvivorsKeepNames(cs, n - 1);
      var before := Surviving(cs, n - 1);
      forall i | 0 <= i < |before|
        ensures before[i].name != cs[n - 1].name
      {
        SurvivingIs(cs, n - 1, before[i]);
        var x :| 0 <= x < n - 1 && cs[x] == before[i];
      }
    }
  }

  /** What is reported is proven by both runs, no reported candidate is an echo of another, and names are
      valid and pairwise distinct. */
  lemma ReportedAreProven(r: Runs)
    ensures
      var reported := Reported(r);
      && (forall c | c in reported :: Proven(r, c) && IsIdent(c.name) && !Redundant(reported, c))
      && (forall i, k | 0 <= i < k < |reported| :: reported[i].name != reported[k].name)
  {
    var cs := Candidates(r);
    ReportedAreSurvivors(r);
    NamesAreDistinct(r);
    ExecutionsAreProven(r, |r.baseline|);
    SurvivorsKeepNames(cs, |cs|);
    forall c | c in Reported(r)
      ensures c in cs && !Redundant(Reported(r), c)
    {
      SurvivingIs(cs, |cs|, c);
      NoneRedundantAmongSurvivors(cs, c);
    }
  }

  /** Every later request value that follows a value which changes between the runs is a consumer of a
      reported candidate with that very value, whose producer is that response or an earlier one. */
  lemma FollowersAreReported(r: Runs, i: nat, k: nat, sink: Occurrence) returns (c: Candidate)
    requires PositionsCount(r) && i < |r.baseline| && k < |r.baseline[i].sources|
    requires var e := r.baseline[i]; IsDynamic(r, e, e.sources[k])
    requires
      var e := r.baseline[i];
      sink in AllSinks(r.baseline) && Follows(r, e, e.sources[k], SecondSource(r, e, e.sources[k]).value.raw, sink)
    ensures c in Reported(r) && c.producer.raw == r.baseline[i].sources[k].raw
    ensures LocationOf(sink) in Places(c.consumers) && c.producer.index <= r.baseline[i].sources[k].index
  {
    var e := r.baseline[i];
    var src := e.sources[k];
    var o := Consumed(src, sink);
    FollowersAre(r, e, src, SecondSource(r, e, src).value.raw, AllSinks(r.baseline), o);
    assert o in ConsumersOf(r, e, src);
    DynamicValuesAreFound(r, |r.baseline|, i, k);
    var found :| found in Candidates(r) && found.producer == src && found.consumers == ConsumersOf(r, e, src);
    ReportedAreSurvivors(r);
    CandidatesCount(r);
    if Redundant(Candidates(r), found) {
      c := EchoHasSurvivingProducer(Candidates(r), found);
    } else {
      c := found;
      SurvivingIs(Candidates(r), |Candidates(r)|, found);
    }
    assert LocationOf(o) == LocationOf(sink) && LocationOf(o) in Places(found.consumers);
  }

  lemma CandidatesCount(r: Runs)
    requires PositionsCount(r)
    ensures CountsFromZero(Candidates(r))
  {
    var cs := Candidates(r);
    ExecutionsAreProven(r, |r.baseline|);
    forall i | 0 <= i < |cs|
      ensures cs[i].producer.index >= 0
    {
      assert cs[i] in cs && Proven(r, cs[i]);
      var e :| e in r.baseline && ProvenBy(r, cs[i], e);
      assert cs[i].producer in e.sources;
    }
  }
}

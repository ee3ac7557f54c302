/** Correlations proven by two runs of the same collection
    (backend/app/services/correlation_engine.py:154-275). */
module TwoRunCorrelation {
  import opened Wrappers
  import opened Text
  import opened Naming
  import opened Occurrences

  /** The two runs, the matched executions of the alignment, and the shortest value that is not
      short. */
  datatype Runs = Runs(baseline: seq<Execution>, comparison: seq<Execution>, matched: map<string, string>,
                       minLength: nat)

  datatype Candidate = Candidate(name: string, producer: Occurrence, consumers: seq<Occurrence>)

  // --- indexes ---

  function AllSinks(run: seq<Execution>): seq<Occurrence> {
    if run == [] then [] else AllSinks(run[..|run| - 1]) + run[|run| - 1].sinks
  }

  function AllSources(run: seq<Execution>): seq<Occurrence> {
    if run == [] then [] else AllSources(run[..|run| - 1]) + run[|run| - 1].sources
  }

  /** The occurrence that the location dictionary keeps: the last one listed. */
  function Indexed(occurrences: seq<Occurrence>): map<Location, Occurrence> {
    if occurrences == [] then map[]
    else
      var last := occurrences[|occurrences| - 1];
      Indexed(occurrences[..|occurrences| - 1])[LocationOf(last) := last]
  }

  lemma {:induction false} IndexedIsThere(occurrences: seq<Occurrence>, at: Location)
    requires at in Indexed(occurrences)
    ensures Indexed(occurrences)[at] in occurrences && LocationOf(Indexed(occurrences)[at]) == at
  {
    var front := occurrences[..|occurrences| - 1];
    assert occurrences == front + [occurrences[|occurrences| - 1]];
    if LocationOf(occurrences[|occurrences| - 1]) != at {
      IndexedIsThere(front, at);
    }
  }

  function SegmentsOf(run: seq<Execution>, id: string): seq<string> {
    if run == [] then []
    else if run[|run| - 1].id == id then run[|run| - 1].segments
    else SegmentsOf(run[..|run| - 1], id)
  }

  // --- the conditions ---

  /** The value at the same place of the aligned response in the second run. */
  function SecondSource(r: Runs, e: Execution, src: Occurrence): Option<Occurrence> {
    var sources := Indexed(AllSources(r.comparison));
    if e.id in r.matched && (r.matched[e.id], src.place, src.path) in sources
    then Some(sources[(r.matched[e.id], src.place, src.path)]) else None
  }

  function SecondSink(r: Runs, sink: Occurrence): Option<Occurrence> {
    var sinks := Indexed(AllSinks(r.comparison));
    if sink.execution in r.matched && (r.matched[sink.execution], sink.place, sink.path) in sinks
    then Some(sinks[(r.matched[sink.execution], sink.place, sink.path)]) else None
  }

  /** A response value that changes from run to run. */
  predicate IsDynamic(r: Runs, e: Execution, src: Occurrence) {
    && e.present && src in e.sources
    && OverrulableOrNone(Excluded(src, r.minLength))
    && SecondSource(r, e, src).Some?
    && SecondSource(r, e, src).value.normalized != src.normalized
  }

  /** A later request value that carries the first value in the first run and, at the same place of
      the aligned request, the second value in the second run. */
  predicate Follows(r: Runs, e: Execution, src: Occurrence, second: string, sink: Occurrence) {
    && sink.index > e.index
    && Match(src.raw, sink).Some?
    && (Excluded(src, r.minLength).Some? ==>
          NamesItsResource(src, sink, SegmentsOf(r.baseline, sink.execution)))
    && SecondSink(r, sink).Some?
    && Match(second, SecondSink(r, sink).value).Some?
  }

  function Consumed(src: Occurrence, sink: Occurrence): Occurrence
    requires Match(src.raw, sink).Some?
  {
    sink.(wrapper := Match(src.raw, sink).value)
  }

  function Followers(r: Runs, e: Execution, src: Occurrence, second: string, sinks: seq<Occurrence>): seq<Occurrence> {
    if sinks == [] then []
    else
      Followers(r, e, src, second, sinks[..|sinks| - 1])
      + (if Follows(r, e, src, second, sinks[|sinks| - 1]) then [Consumed(src, sinks[|sinks| - 1])] else [])
  }

  function ConsumersOf(r: Runs, e: Execution, src: Occurrence): seq<Occurrence>
    requires SecondSource(r, e, src).Some?
  {
    Followers(r, e, src, SecondSource(r, e, src).value.raw, AllSinks(r.baseline))
  }

  // --- the candidates, in the order they are found ---

  datatype Found = Found(candidates: seq<Candidate>, taken: set<string>)

  function AfterSource(r: Runs, e: Execution, src: Occurrence, f: Found): Found {
    if !IsDynamic(r, e, src) || ConsumersOf(r, e, src) == [] then f
    else
      var name := Deduped(SuggestedName(src.key, src.path), f.taken);
      Found(f.candidates + [Candidate(name, src, ConsumersOf(r, e, src))], f.taken + {name})
  }

  function AfterSources(r: Runs, e: Execution, n: nat, f: Found): Found
    requires n <= |e.sources|
  {
    if n == 0 then f else AfterSource(r, e, e.sources[n - 1], AfterSources(r, e, n - 1, f))
  }

  function AfterExecution(r: Runs, e: Execution, f: Found): Found {
    if e.present then AfterSources(r, e, |e.sources|, f) else f
  }

  function AfterExecutions(r: Runs, n: nat): Found
    requires n <= |r.baseline|
  {
    if n == 0 then Found([], {}) else AfterExecution(r, r.baseline[n - 1], AfterExecutions(r, n - 1))
  }

  function Candidates(r: Runs): seq<Candidate> {
    AfterExecutions(r, |r.baseline|).candidates
  }

  // --- the nested loops ---

  method AnalyzeTwoRun(r: Runs) returns (candidates: seq<Candidate>)
    ensures candidates == Candidates(r)
  {
    var found := Found([], {});
    var sinks := AllSinks(r.baseline);
    for i := 0 to |r.baseline|
      invariant found == AfterExecutions(r, i)
    {
      var e := r.baseline[i];
      if e.present {
        for k := 0 to |e.sources|
          invariant found == AfterSources(r, e, k, AfterExecutions(r, i))
        {
          found := TrySource(r, e, e.sources[k], sinks, found);
        }
      }
    }
    candidates := found.candidates;
  }

  method TrySource(r: Runs, e: Execution, src: Occurrence, sinks: seq<Occurrence>, found: Found) returns (next: Found)
    requires e.present && src in e.sources && sinks == AllSinks(r.baseline)
    ensures next == AfterSource(r, e, src, found)
  {
    next := found;
    var exclusion := Excluded(src, r.minLength);
    if !OverrulableOrNone(exclusion) {
      return;
    }
    var second := SecondSource(r, e, src);
    if second.None? || second.value.normalized == src.normalized {
      return;
    }
    var consumers := [];
    for i := 0 to |sinks|
      invariant consumers == Followers(r, e, src, second.value.raw, sinks[..i])
    {
      assert sinks[..i + 1][..i] == sinks[..i];
      if Follows(r, e, src, second.value.raw, sinks[i]) {
        consumers := consumers + [Consumed(src, sinks[i])];
      }
    }
    assert sinks[..|sinks|] == sinks;
    if consumers == [] {
      return;
    }
    var name, taken := DedupeVariableName(SuggestedName(src.key, src.path), found.taken);
    next := Found(found.candidates + [Candidate(name, src, consumers)], taken);
  }

  // --- what the candidates are ---

  /** A candidate comes from a value that is dynamic, and holds all the consumers of that value. */
  predicate Proven(r: Runs, c: Candidate) {
    exists e :: e in r.baseline && ProvenBy(r, c, e)
  }

  predicate ProvenBy(r: Runs, c: Candidate, e: Execution) {
    IsDynamic(r, e, c.producer) && c.consumers == ConsumersOf(r, e, c.producer) && c.consumers != []
  }

  /** A name that some earlier candidate has is taken. */
  predicate Named(f: Found) {
    && (forall c | c in f.candidates :: c.name in f.taken && IsIdent(c.name))
    && (forall i, k | 0 <= i < k < |f.candidates| :: f.candidates[i].name != f.candidates[k].name)
  }

  lemma SourceKeepsNames(r: Runs, e: Execution, src: Occurrence, f: Found)
    requires Named(f)
    ensures Named(AfterSource(r, e, src, f))
  {
    SuggestedIsIdent(src.key, src.path);
    DedupedIsIdent(SuggestedName(src.key, src.path), f.taken);
    assert forall i | 0 <= i < |f.candidates| :: f.candidates[i] in f.candidates;
  }

  lemma {:induction false} SourcesKeepNames(r: Runs, e: Execution, n: nat, f: Found)
    requires Named(f) && n <= |e.sources|
    ensures Named(AfterSources(r, e, n, f))
  {
    if n > 0 {
      SourcesKeepNames(r, e, n - 1, f);
      SourceKeepsNames(r, e, e.sources[n - 1], AfterSources(r, e, n - 1, f));
    }
  }

  lemma {:induction false} ExecutionsKeepNames(r: Runs, n: nat)
    requires n <= |r.baseline|
    ensures Named(AfterExecutions(r, n))
  {
    if n > 0 {
      ExecutionsKeepNames(r, n - 1);
      SourcesKeepNames(r, r.baseline[n - 1], |r.baseline[n - 1].sources|, AfterExecutions(r, n - 1));
    }
  }

  /** Variable names are valid identifiers and pairwise distinct. */
  lemma NamesAreDistinct(r: Runs)
    ensures
      var cs := Candidates(r);
      && (forall c | c in cs :: IsIdent(c.name))
      && (forall i, k | 0 <= i < k < |cs| :: cs[i].name != cs[k].name)
  {
    ExecutionsKeepNames(r, |r.baseline|);
  }

  predicate AllProven(r: Runs, cs: seq<Candidate>) {
    forall c | c in cs :: Proven(r, c)
  }

  lemma {:induction false} SourcesAreProven(r: Runs, e: Execution, n: nat, f: Found)
    requires e in r.baseline && n <= |e.sources| && AllProven(r, f.candidates)
    ensures AllProven(r, AfterSources(r, e, n, f).candidates)
  {
    if n > 0 {
      SourcesAreProven(r, e, n - 1, f);
      var src, before := e.sources[n - 1], AfterSources(r, e, n - 1, f);
      forall c | c in AfterSource(r, e, src, before).candidates
        ensures Proven(r, c)
      {
        assert c !in before.candidates ==> ProvenBy(r, c, e);
      }
    }
  }

  lemma {:induction false} ExecutionsAreProven(r: Runs, n: nat)
    requires n <= |r.baseline|
    ensures AllProven(r, AfterExecutions(r, n).candidates)
  {
    if n > 0 {
      ExecutionsAreProven(r, n - 1);
      SourcesAreProven(r, r.baseline[n - 1], |r.baseline[n - 1].sources|, AfterExecutions(r, n - 1));
    }
  }

  /** Which occurrences are among the followers: every sink that follows, with its wrapper, and no
      other. */
  lemma {:induction false} FollowersAre(r: Runs, e: Execution, src: Occurrence, second: string, sinks: seq<Occurrence>,
                                        o: Occurrence)
    ensures o in Followers(r, e, src, second, sinks) <==>
              exists s :: s in sinks && Follows(r, e, src, second, s) && o == Consumed(src, s)
  {
    if sinks != [] {
      FollowersAre(r, e, src, second, sinks[..|sinks| - 1], o);
      assert sinks == sinks[..|sinks| - 1] + [sinks[|sinks| - 1]];
    }
  }

  /** The consumers of a candidate are exactly the later baseline sinks that carry the first value
      (a short one only where the path names its resource) and whose aligned sink carries the
      second one, the two values being different. */
  lemma ConsumersAreExact(r: Runs, c: Candidate) returns (e: Execution)
    requires c in Candidates(r)
    ensures e in r.baseline && IsDynamic(r, e, c.producer) && c.consumers != []
    ensures forall o :: o in c.consumers <==>
              exists s :: s in AllSinks(r.baseline)
                && Follows(r, e, c.producer, SecondSource(r, e, c.producer).value.raw, s)
                && o == Consumed(c.producer, s)
  {
    ExecutionsAreProven(r, |r.baseline|);
    e :| e in r.baseline && ProvenBy(r, c, e);
    forall o
      ensures o in c.consumers <==>
                exists s :: s in AllSinks(r.baseline)
                  && Follows(r, e, c.producer, SecondSource(r, e, c.producer).value.raw, s)
                  && o == Consumed(c.producer, s)
    {
      FollowersAre(r, e, c.producer, SecondSource(r, e, c.producer).value.raw, AllSinks(r.baseline), o);
    }
  }

  // --- every dynamic value with a consumer is found ---

  lemma {:induction false} SourcesExtend(r: Runs, e: Execution, n: nat, f: Found)
    requires n <= |e.sources|
    ensures f.candidates <= AfterSources(r, e, n, f).candidates
  {
    if n > 0 {
      SourcesExtend(r, e, n - 1, f);
    }
  }

  lemma {:induction false} SourceIsFound(r: Runs, e: Execution, n: nat, f: Found, k: nat)
    requires k < n <= |e.sources| && IsDynamic(r, e, e.sources[k]) && ConsumersOf(r, e, e.sources[k]) != []
    ensures exists c :: c in AfterSources(r, e, n, f).candidates
              && c.producer == e.sources[k] && c.consumers == ConsumersOf(r, e, e.sources[k])
  {
    if k < n - 1 {
      SourceIsFound(r, e, n - 1, f, k);
    } else {
      var after := AfterSources(r, e, n, f).candidates;
      assert after[|after| - 1].producer == e.sources[k];
    }
  }

  lemma {:induction false} DynamicValuesAreFound(r: Runs, n: nat, i: nat, k: nat)
    requires i < n <= |r.baseline| && k < |r.baseline[i].sources|
    requires var e := r.baseline[i]; IsDynamic(r, e, e.sources[k]) && ConsumersOf(r, e, e.sources[k]) != []
    ensures
      var e := r.baseline[i];
      exists c :: c in AfterExecutions(r, n).candidates
        && c.producer == e.sources[k] && c.consumers == ConsumersOf(r, e, e.sources[k])
  {
    if i < n - 1 {
      DynamicValuesAreFound(r, n - 1, i, k);
      var last := r.baseline[n - 1];
      SourcesExtend(r, last, |last.sources|, AfterExecutions(r, n - 1));
    } else {
      SourceIsFound(r, r.baseline[i], |r.baseline[i].sources|, AfterExecutions(r, i), k);
    }
  }

  /** The second-run counterpart of a sink is listed for the aligned request, at the same place. */
  lemma SecondSinkIsAligned(r: Runs, sink: Occurrence)
    requires SecondSink(r, sink).Some?
    ensures
      var other := SecondSink(r, sink).value;
      && other in AllSinks(r.comparison) && sink.execution in r.matched
      && LocationOf(other) == (r.matched[sink.execution], sink.place, sink.path)
  {
    IndexedIsThere(AllSinks(r.comparison), (r.matched[sink.execution], sink.place, sink.path));
  }
}
